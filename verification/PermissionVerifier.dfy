/** The verifier of the private operations channel. Masks come as decimal texts and stand for the set
    of their bit positions, so that "or" is union and "and not" is difference; role and member
    identifiers are strings. */
module PermissionVerifier {
  import opened Wrappers

  type Id = string
  type Mask = string
  type Permissions = set<nat>

  const ADMINISTRATOR: nat := 3
  const VIEW_CHANNEL: nat := 10
  const SEND_MESSAGES: nat := 11
  const MANAGE_MESSAGES: nat := 13
  const EMBED_LINKS: nat := 14
  const READ_MESSAGE_HISTORY: nat := 16
  const PIN_MESSAGES: nat := 51
  const ALL_PERMISSIONS: Permissions :=
    {ADMINISTRATOR, EMBED_LINKS, MANAGE_MESSAGES, PIN_MESSAGES, READ_MESSAGE_HISTORY, SEND_MESSAGES, VIEW_CHANNEL}

  const BOT_PERMISSIONS: Permissions := ALL_PERMISSIONS - {ADMINISTRATOR}
  const CATEGORY_TYPE: int := 4

  datatype OverwriteKind = ForRole | ForMember

  datatype Overwrite = Overwrite(kind: OverwriteKind, id: Id, allow: Mask, deny: Mask)

  datatype Role = Role(id: Id, permissions: Mask, botId: Option<Id>)

  datatype Member = Member(userId: Id, roles: seq<Id>)

  datatype Channel = Channel(id: Id, guildId: Id, parentId: Option<Id>, kind: int, overwrites: seq<Overwrite>)

  datatype Snapshot = Snapshot(
    guildId: Id,
    ownerId: Id,
    adminRoleId: Id,
    botUserId: Id,
    botMember: Member,
    category: Option<Channel>,
    channel: Channel,
    explicitMembers: seq<Member>,
    mappedAdminUserIds: seq<Id>,
    registeredCommandNames: seq<string>,
    roles: seq<Role>)

  // ---------------------------------------------------------------- masks

  predicate IsDecimal(text: Mask) {
    text != "" && forall i :: 0 <= i < |text| ==> '0' <= text[i] <= '9'
  }

  function DecimalValue(text: Mask): nat
    requires forall i :: 0 <= i < |text| ==> '0' <= text[i] <= '9'
  {
    if text == "" then 0 else DecimalValue(text[..|text| - 1]) * 10 + (text[|text| - 1] as int - '0' as int)
  }

  predicate HasBit(n: nat, b: nat) {
    if b == 0 then n % 2 == 1 else HasBit(n / 2, b - 1)
  }

  function BitsOf(n: nat): Permissions {
    set b: nat | b < n && HasBit(n, b)
  }

  /** A text that is no decimal number is rejected before its bits are asked for. */
  function Bits(text: Mask): Permissions {
    if IsDecimal(text) then BitsOf(DecimalValue(text)) else {}
  }

  lemma {:induction false} BitsAreBelow(n: nat, b: nat)
    requires HasBit(n, b)
    ensures b < n
  {
    if b > 0 { BitsAreBelow(n / 2, b - 1); }
  }

  /** No bit of a number is lost: numbers with the same bits are the same. */
  lemma {:induction false} SameBitsSameNumber(n: nat, m: nat)
    requires BitsOf(n) == BitsOf(m)
    ensures n == m
  {
    if n > 0 || m > 0 {
      forall b: nat ensures HasBit(n, b) == HasBit(m, b) {
        if HasBit(n, b) { BitsAreBelow(n, b); assert b in BitsOf(n); }
        if HasBit(m, b) { BitsAreBelow(m, b); assert b in BitsOf(m); }
      }
      assert HasBit(n, 0) == HasBit(m, 0);
      forall b: nat ensures HasBit(n / 2, b) == HasBit(m / 2, b) {
        assert HasBit(n, b + 1) == HasBit(m, b + 1);
      }
      assert BitsOf(n / 2) == BitsOf(m / 2) by {
        forall b: nat ensures b in BitsOf(n / 2) <==> b in BitsOf(m / 2) {
          if HasBit(n / 2, b) { BitsAreBelow(n / 2, b); BitsAreBelow(m / 2, b); }
        }
      }
      SameBitsSameNumber(n / 2, m / 2);
    }
  }

  /** A number as it is printed in decimals. */
  function Printed(n: nat): Mask {
    (if n < 10 then "" else Printed(n / 10)) + [('0' as int + n % 10) as char]
  }

  /** Reading a printed number gives it back, and zeros in front do not matter. */
  lemma {:induction false} DecimalsAreRead(n: nat)
    ensures IsDecimal(Printed(n)) && DecimalValue(Printed(n)) == n
  {
    var front := if n < 10 then "" else Printed(n / 10);
    assert Printed(n)[..|Printed(n)| - 1] == front;
    if n >= 10 { DecimalsAreRead(n / 10); }
  }

  lemma OnlyDigitsAreDecimal(text: Mask)
    ensures IsDecimal(text) <==> text != "" && forall c :: c in text ==> c in "0123456789"
  {
    if IsDecimal(text) {
      forall c | c in text ensures c in "0123456789" { OneOfTen(c); }
    } else if text != "" {
      var i :| 0 <= i < |text| && !('0' <= text[i] <= '9');
      assert text[i] in text;
    }
  }

  lemma OneOfTen(c: char)
    requires '0' <= c <= '9'
    ensures c in "0123456789"
  {
    assert c == '0' || c == '1' || c == '2' || c == '3' || c == '4' || c == '5' || c == '6' || c == '7' || c == '8' || c == '9';
  }

  // ---------------------------------------------------------------- what the operators on numbers do

  /** The bits of the operators on two numbers, from the lowest one on. */
  function Or(n: nat, m: nat): nat {
    if n == 0 && m == 0 then 0 else 2 * Or(n / 2, m / 2) + (if n % 2 == 1 || m % 2 == 1 then 1 else 0)
  }

  function And(n: nat, m: nat): nat {
    if n == 0 || m == 0 then 0 else 2 * And(n / 2, m / 2) + (if n % 2 == 1 && m % 2 == 1 then 1 else 0)
  }

  /** n with the bits of m taken out. */
  function AndNot(n: nat, m: nat): nat {
    if n == 0 then 0 else 2 * AndNot(n / 2, m / 2) + (if n % 2 == 1 && m % 2 == 0 then 1 else 0)
  }

  lemma HalvesOr(n: nat, m: nat)
    ensures Or(n, m) / 2 == Or(n / 2, m / 2)
    ensures Or(n, m) % 2 == 1 <==> n % 2 == 1 || m % 2 == 1
  {
  }

  lemma {:induction false} BitOfOr(n: nat, m: nat, b: nat)
    ensures HasBit(Or(n, m), b) <==> HasBit(n, b) || HasBit(m, b)
  {
    HalvesOr(n, m);
    if b > 0 { BitOfOr(n / 2, m / 2, b - 1); }
  }

  lemma HalvesAnd(n: nat, m: nat)
    ensures And(n, m) / 2 == And(n / 2, m / 2)
    ensures And(n, m) % 2 == 1 <==> n % 2 == 1 && m % 2 == 1
  {
  }

  lemma {:induction false} BitOfAnd(n: nat, m: nat, b: nat)
    ensures HasBit(And(n, m), b) <==> HasBit(n, b) && HasBit(m, b)
  {
    HalvesAnd(n, m);
    if b > 0 { BitOfAnd(n / 2, m / 2, b - 1); }
  }

  lemma HalvesAndNot(n: nat, m: nat)
    ensures AndNot(n, m) / 2 == AndNot(n / 2, m / 2)
    ensures AndNot(n, m) % 2 == 1 <==> n % 2 == 1 && m % 2 == 0
  {
  }

  lemma {:induction false} BitOfAndNot(n: nat, m: nat, b: nat)
    ensures HasBit(AndNot(n, m), b) <==> HasBit(n, b) && !HasBit(m, b)
  {
    HalvesAndNot(n, m);
    if b > 0 { BitOfAndNot(n / 2, m / 2, b - 1); }
  }

  lemma {:induction false} NoBitOfZero(b: nat)
    ensures !HasBit(0, b)
  {
    if b > 0 { NoBitOfZero(b - 1); }
  }

  lemma BitsOfHas(n: nat, b: nat)
    ensures b in BitsOf(n) <==> HasBit(n, b)
  {
    if HasBit(n, b) { BitsAreBelow(n, b); }
  }

  /** On sets of bits the operators are union, intersection and difference; a mask has another one's
      bits all when "and" gives the other one back. */
  lemma OperatorsOnBits(n: nat, m: nat)
    ensures BitsOf(Or(n, m)) == BitsOf(n) + BitsOf(m)
    ensures BitsOf(And(n, m)) == BitsOf(n) * BitsOf(m)
    ensures BitsOf(AndNot(n, m)) == BitsOf(n) - BitsOf(m)
    ensures And(n, m) == m <==> BitsOf(m) <= BitsOf(n)
  {
    forall b: nat
      ensures b in BitsOf(Or(n, m)) <==> b in BitsOf(n) || b in BitsOf(m)
      ensures b in BitsOf(And(n, m)) <==> b in BitsOf(n) && b in BitsOf(m)
      ensures b in BitsOf(AndNot(n, m)) <==> b in BitsOf(n) && b !in BitsOf(m)
    {
      BitOfOr(n, m, b);
      BitOfAnd(n, m, b);
      BitOfAndNot(n, m, b);
      BitsOfHas(n, b);
      BitsOfHas(m, b);
      BitsOfHas(Or(n, m), b);
      BitsOfHas(And(n, m), b);
      BitsOfHas(AndNot(n, m), b);
    }
    assert BitsOf(m) <= BitsOf(n) <==> BitsOf(n) * BitsOf(m) == BitsOf(m);
    if BitsOf(And(n, m)) == BitsOf(m) { SameBitsSameNumber(And(n, m), m); }
  }

  function Power2(k: nat): nat { if k == 0 then 1 else 2 * Power2(k - 1) }

  lemma {:induction false} OnePermission(k: nat)
    ensures BitsOf(Power2(k)) == {k}
  {
    forall b: nat ensures b in BitsOf(Power2(k)) <==> b == k {
      BitOfPower(k, b);
      BitsOfHas(Power2(k), b);
    }
  }

  lemma {:induction false} BitOfPower(k: nat, b: nat)
    ensures HasBit(Power2(k), b) <==> b == k
  {
    if k == 0 {
      if b > 0 { NoBitOfZero(b - 1); }
    } else if b > 0 {
      BitOfPower(k - 1, b - 1);
    }
  }

  /** The constants of the program are the numbers with just these bits. */
  lemma ConstantsAreBits()
    ensures BitsOf(8) == {ADMINISTRATOR} && BitsOf(1_024) == {VIEW_CHANNEL} && BitsOf(2_048) == {SEND_MESSAGES}
    ensures BitsOf(8_192) == {MANAGE_MESSAGES} && BitsOf(16_384) == {EMBED_LINKS} && BitsOf(65_536) == {READ_MESSAGE_HISTORY}
    ensures BitsOf(2_251_799_813_685_248) == {PIN_MESSAGES}
  {
    PowersOfTwo();
    OnePermission(ADMINISTRATOR);
    OnePermission(VIEW_CHANNEL);
    OnePermission(SEND_MESSAGES);
    OnePermission(MANAGE_MESSAGES);
    OnePermission(EMBED_LINKS);
    OnePermission(READ_MESSAGE_HISTORY);
    OnePermission(PIN_MESSAGES);
  }

  lemma PowersOfTwo()
    ensures Power2(3) == 8 && Power2(10) == 1_024 && Power2(11) == 2_048 && Power2(13) == 8_192
    ensures Power2(14) == 16_384 && Power2(16) == 65_536 && Power2(51) == 2_251_799_813_685_248
  {
    assert Power2(26) == 65_536 * 1_024 && Power2(36) == 65_536 * 1_048_576;
    assert Power2(46) == 65_536 * 1_073_741_824;
  }

  // ---------------------------------------------------------------- effective permissions

  function FirstOverwrite(overwrites: seq<Overwrite>, kind: OverwriteKind, id: Id): Option<Overwrite> {
    if overwrites == [] then None
    else if overwrites[0].kind == kind && overwrites[0].id == id then Some(overwrites[0])
    else FirstOverwrite(overwrites[1..], kind, id)
  }

  /** A deny is taken away first, then the allow is put in. */
  function Amend(p: Permissions, o: Option<Overwrite>): Permissions {
    match o
    case None => p
    case Some(o) => p - Bits(o.deny) + Bits(o.allow)
  }

  predicate Applies(o: Overwrite, guildId: Id, roleIds: set<Id>) {
    o.kind == ForRole && o.id != guildId && o.id in roleIds
  }

  function RoleDenies(overwrites: seq<Overwrite>, guildId: Id, roleIds: set<Id>): Permissions {
    set o, b | o in overwrites && Applies(o, guildId, roleIds) && b in Bits(o.deny) :: b
  }

  function RoleAllows(overwrites: seq<Overwrite>, guildId: Id, roleIds: set<Id>): Permissions {
    set o, b | o in overwrites && Applies(o, guildId, roleIds) && b in Bits(o.allow) :: b
  }

  function ApplyOverwrites(p: Permissions, c: Channel, guildId: Id, roleIds: set<Id>, memberId: Option<Id>): Permissions {
    var afterEveryone := Amend(p, FirstOverwrite(c.overwrites, ForRole, guildId));
    var afterRoles := afterEveryone - RoleDenies(c.overwrites, guildId, roleIds) + RoleAllows(c.overwrites, guildId, roleIds);
    match memberId
    case None => afterRoles
    case Some(m) => Amend(afterRoles, FirstOverwrite(c.overwrites, ForMember, m))
  }

  function BasePermissions(s: Snapshot, roleIds: set<Id>): Permissions {
    set r, b | r in s.roles && (r.id == s.guildId || r.id in roleIds) && b in Bits(r.permissions) :: b
  }

  function EffectivePermissions(s: Snapshot, roleIds: set<Id>, memberId: Option<Id>): Permissions {
    var basePerms := BasePermissions(s, roleIds);
    if memberId == Some(s.ownerId) || ADMINISTRATOR in basePerms then ALL_PERMISSIONS
    else
      var inherited := if s.category.Some? then ApplyOverwrites(basePerms, s.category.value, s.guildId, roleIds, memberId) else basePerms;
      ApplyOverwrites(inherited, s.channel, s.guildId, roleIds, memberId)
  }

  predicate CanView(s: Snapshot, roleIds: set<Id>, memberId: Option<Id>) {
    VIEW_CHANNEL in EffectivePermissions(s, roleIds, memberId)
  }

  // ---------------------------------------------------------------- what one permission depends on

  /** The overwrite that counts when several name the same subject. */
  ghost predicate IsFirst(overwrites: seq<Overwrite>, kind: OverwriteKind, id: Id, o: Overwrite) {
    exists i ::
      && 0 <= i < |overwrites| && overwrites[i] == o && o.kind == kind && o.id == id
      && forall k :: 0 <= k < i ==> !(overwrites[k].kind == kind && overwrites[k].id == id)
  }

  lemma {:induction false} FirstOverwriteIsFirst(overwrites: seq<Overwrite>, kind: OverwriteKind, id: Id)
    ensures FirstOverwrite(overwrites, kind, id).None? <==> forall o :: o in overwrites ==> !(o.kind == kind && o.id == id)
    ensures forall o :: IsFirst(overwrites, kind, id, o) <==> FirstOverwrite(overwrites, kind, id) == Some(o)
  {
    if overwrites != [] {
      var head, tail := overwrites[0], overwrites[1..];
      FirstOverwriteIsFirst(tail, kind, id);
      assert overwrites == [head] + tail;
      if head.kind == kind && head.id == id {
        assert IsFirst(overwrites, kind, id, head);
      } else {
        forall o ensures IsFirst(overwrites, kind, id, o) <==> IsFirst(tail, kind, id, o) { FirstOfTail(overwrites, kind, id, o); }
      }
    }
  }

  lemma FirstOfTail(overwrites: seq<Overwrite>, kind: OverwriteKind, id: Id, o: Overwrite)
    requires overwrites != [] && !(overwrites[0].kind == kind && overwrites[0].id == id)
    ensures IsFirst(overwrites, kind, id, o) <==> IsFirst(overwrites[1..], kind, id, o)
  {
    var tail := overwrites[1..];
    assert forall k :: 0 <= k < |tail| ==> tail[k] == overwrites[k + 1];
    if IsFirst(overwrites, kind, id, o) {
      var i :| 0 <= i < |overwrites| && overwrites[i] == o && o.kind == kind && o.id == id
               && forall k :: 0 <= k < i ==> !(overwrites[k].kind == kind && overwrites[k].id == id);
      assert tail[i - 1] == o;
    }
    if IsFirst(tail, kind, id, o) {
      var i :| 0 <= i < |tail| && tail[i] == o && o.kind == kind && o.id == id
               && forall k :: 0 <= k < i ==> !(tail[k].kind == kind && tail[k].id == id);
      assert overwrites[i + 1] == o;
      forall k | 0 <= k < i + 1 ensures !(overwrites[k].kind == kind && overwrites[k].id == id) {
        if k > 0 { assert overwrites[k] == tail[k - 1]; }
      }
    }
  }

  ghost predicate FirstAllows(c: Channel, kind: OverwriteKind, id: Id, b: nat) {
    exists o :: IsFirst(c.overwrites, kind, id, o) && b in Bits(o.allow)
  }

  ghost predicate FirstDenies(c: Channel, kind: OverwriteKind, id: Id, b: nat) {
    exists o :: IsFirst(c.overwrites, kind, id, o) && b in Bits(o.deny)
  }

  ghost predicate SomeRoleAllows(c: Channel, guildId: Id, roleIds: set<Id>, b: nat) {
    exists o :: o in c.overwrites && o.kind == ForRole && o.id != guildId && o.id in roleIds && b in Bits(o.allow)
  }

  ghost predicate SomeRoleDenies(c: Channel, guildId: Id, roleIds: set<Id>, b: nat) {
    exists o :: o in c.overwrites && o.kind == ForRole && o.id != guildId && o.id in roleIds && b in Bits(o.deny)
  }

  /** Whether a permission is there after a channel's overwrites: the member's own one decides if it
      speaks of the permission, else a role that allows, else a role that denies, else @everyone, else
      what was there before; where one overwrite both allows and denies, it allows. */
  ghost predicate There(c: Channel, guildId: Id, roleIds: set<Id>, memberId: Option<Id>, b: nat, before: bool) {
    if memberId.Some? && FirstAllows(c, ForMember, memberId.value, b) then true
    else if memberId.Some? && FirstDenies(c, ForMember, memberId.value, b) then false
    else if SomeRoleAllows(c, guildId, roleIds, b) then true
    else if SomeRoleDenies(c, guildId, roleIds, b) then false
    else if FirstAllows(c, ForRole, guildId, b) then true
    else if FirstDenies(c, ForRole, guildId, b) then false
    else before
  }

  lemma OverwritesDecide(p: Permissions, c: Channel, guildId: Id, roleIds: set<Id>, memberId: Option<Id>, b: nat)
    ensures b in ApplyOverwrites(p, c, guildId, roleIds, memberId) <==> There(c, guildId, roleIds, memberId, b, b in p)
  {
    FirstOverwriteIsFirst(c.overwrites, ForRole, guildId);
    if memberId.Some? { FirstOverwriteIsFirst(c.overwrites, ForMember, memberId.value); }
    RolesDecide(c, guildId, roleIds, b);
  }

  lemma RolesDecide(c: Channel, guildId: Id, roleIds: set<Id>, b: nat)
    ensures b in RoleAllows(c.overwrites, guildId, roleIds) <==> SomeRoleAllows(c, guildId, roleIds, b)
    ensures b in RoleDenies(c.overwrites, guildId, roleIds) <==> SomeRoleDenies(c, guildId, roleIds, b)
  {
  }

  /** The loop over the overwrites, which collects the denies and the allows of all held roles. */
  method ComputeOverwrites(p: Permissions, c: Channel, guildId: Id, roleIds: set<Id>, memberId: Option<Id>)
    returns (result: Permissions)
    ensures result == ApplyOverwrites(p, c, guildId, roleIds, memberId)
    ensures forall b: nat :: b in result <==> There(c, guildId, roleIds, memberId, b, b in p)
  {
    result := Amend(p, FirstOverwrite(c.overwrites, ForRole, guildId));
    var deny: Permissions, allow: Permissions := {}, {};
    for i := 0 to |c.overwrites|
      invariant deny == RoleDenies(c.overwrites[..i], guildId, roleIds)
      invariant allow == RoleAllows(c.overwrites[..i], guildId, roleIds)
    {
      var o := c.overwrites[i];
      assert c.overwrites[..i + 1] == c.overwrites[..i] + [o];
      if Applies(o, guildId, roleIds) {
        deny := deny + Bits(o.deny);
        allow := allow + Bits(o.allow);
      }
    }
    assert c.overwrites[..|c.overwrites|] == c.overwrites;
    result := result - deny + allow;
    if memberId.Some? {
      result := Amend(result, FirstOverwrite(c.overwrites, ForMember, memberId.value));
    }
    forall b: nat ensures b in result <==> There(c, guildId, roleIds, memberId, b, b in p) {
      OverwritesDecide(p, c, guildId, roleIds, memberId, b);
    }
  }

  ghost predicate RoleGives(s: Snapshot, roleIds: set<Id>, b: nat) {
    exists r :: r in s.roles && (r.id == s.guildId || r.id in roleIds) && b in Bits(r.permissions)
  }

  /** What somebody is allowed in the end: the owner and administrators everything that has a name, and
      others what @everyone and their roles give after the category's and then the channel's overwrites. */
  lemma PermissionsDecide(s: Snapshot, roleIds: set<Id>, memberId: Option<Id>, b: nat)
    ensures b in EffectivePermissions(s, roleIds, memberId) <==>
            if memberId == Some(s.ownerId) || RoleGives(s, roleIds, ADMINISTRATOR) then
              b in {ADMINISTRATOR, EMBED_LINKS, MANAGE_MESSAGES, PIN_MESSAGES, READ_MESSAGE_HISTORY, SEND_MESSAGES, VIEW_CHANNEL}
            else
              There(s.channel, s.guildId, roleIds, memberId, b,
                    if s.category.Some? then There(s.category.value, s.guildId, roleIds, memberId, b, RoleGives(s, roleIds, b))
                    else RoleGives(s, roleIds, b))
  {
    BaseDecides(s, roleIds, ADMINISTRATOR);
    BaseDecides(s, roleIds, b);
    var before := BasePermissions(s, roleIds);
    if s.category.Some? {
      OverwritesDecide(before, s.category.value, s.guildId, roleIds, memberId, b);
      before := ApplyOverwrites(before, s.category.value, s.guildId, roleIds, memberId);
    }
    OverwritesDecide(before, s.channel, s.guildId, roleIds, memberId, b);
  }

  lemma BaseDecides(s: Snapshot, roleIds: set<Id>, b: nat)
    ensures b in BasePermissions(s, roleIds) <==> RoleGives(s, roleIds, b)
  {
  }

  // ---------------------------------------------------------------- the verifier

  datatype Issue =
    | MalformedData(subject: Id)
    | AdminRoleIsEveryone(subject: Id)
    | AdminRoleMissing(subject: Id)
    | AdminRoleCannotView(subject: Id)
    | LeakedRole(subject: Id)
    | MappedAdminMissing(subject: Id)
    | MappedAdminRoleMissing(subject: Id)
    | ExplicitMemberMissing(subject: Id)
    | LeakedMember(subject: Id)
    | BotPermissionsMissing(missing: Permissions)
    | CommandMissing(name: string)

  function AllOverwrites(s: Snapshot): seq<Overwrite> {
    (if s.category.Some? then s.category.value.overwrites else []) + s.channel.overwrites
  }

  predicate KnownRole(s: Snapshot, id: Id) {
    exists r :: r in s.roles && r.id == id
  }

  predicate ShapeOk(s: Snapshot) {
    && s.guildId == s.channel.guildId
    && s.channel.kind != CATEGORY_TYPE
    && match s.channel.parentId
       case None => s.category.None?
       case Some(p) => s.category.Some? && s.category.value.id == p && s.category.value.guildId == s.guildId && s.category.value.kind == CATEGORY_TYPE
  }

  predicate IdsUnique(s: Snapshot) {
    && (forall i, k :: 0 <= i < k < |s.roles| ==> s.roles[i].id != s.roles[k].id)
    && (forall i, k :: 0 <= i < k < |s.explicitMembers| ==> s.explicitMembers[i].userId != s.explicitMembers[k].userId)
  }

  predicate MasksAreDecimal(s: Snapshot) {
    && (forall r :: r in s.roles ==> IsDecimal(r.permissions))
    && (forall o :: o in AllOverwrites(s) ==> IsDecimal(o.allow) && IsDecimal(o.deny))
  }

  function UnknownOverwriteRole(s: Snapshot, overwrites: seq<Overwrite>): (r: Option<Id>)
    ensures r.None? <==> forall o :: o in overwrites && o.kind == ForRole ==> KnownRole(s, o.id)
  {
    if overwrites == [] then None
    else if overwrites[0].kind == ForRole && !KnownRole(s, overwrites[0].id) then Some(overwrites[0].id)
    else UnknownOverwriteRole(s, overwrites[1..])
  }

  function UnknownRole(s: Snapshot, ids: seq<Id>): (r: Option<Id>)
    ensures r.None? <==> forall id :: id in ids ==> KnownRole(s, id)
  {
    if ids == [] then None else if !KnownRole(s, ids[0]) then Some(ids[0]) else UnknownRole(s, ids[1..])
  }

  function UnknownMemberRole(s: Snapshot, members: seq<Member>): (r: Option<Id>)
    ensures r.None? <==> forall m, id :: m in members && id in m.roles ==> KnownRole(s, id)
  {
    if members == [] then None
    else if UnknownRole(s, members[0].roles).Some? then UnknownRole(s, members[0].roles)
    else UnknownMemberRole(s, members[1..])
  }

  function MalformedSubject(s: Snapshot): (r: Option<Id>)
    ensures r.None? ==> forall o :: o in AllOverwrites(s) && o.kind == ForRole ==> KnownRole(s, o.id)
  {
    if !ShapeOk(s) then Some(s.channel.id)
    else if !IdsUnique(s) || !MasksAreDecimal(s) then Some(s.guildId)
    else if UnknownOverwriteRole(s, AllOverwrites(s)).Some? then UnknownOverwriteRole(s, AllOverwrites(s))
    else UnknownMemberRole(s, s.explicitMembers + [s.botMember])
  }

  function FindMember(members: seq<Member>, id: Id): Option<Member> {
    if members == [] then None
    else if members[|members| - 1].userId == id then Some(members[|members| - 1])
    else FindMember(members[..|members| - 1], id)
  }

  /** The bot's own membership takes precedence over a listed member with the same user. */
  function MemberOf(s: Snapshot, id: Id): Option<Member> {
    FindMember(s.explicitMembers + [s.botMember], id)
  }

  function ToSet(ids: seq<Id>): set<Id> { set id | id in ids }

  function ExplicitIds(s: Snapshot): set<Id> {
    set o | o in AllOverwrites(s) && o.kind == ForMember :: o.id
  }

  /** The one role the verifier gives its imaginary member; nobody holds @everyone explicitly. */
  function TestRoles(s: Snapshot, r: Role): set<Id> {
    if r.id == s.guildId then {} else {r.id}
  }

  predicate RoleLeaks(s: Snapshot, r: Role) {
    && !(r.id == s.adminRoleId && s.adminRoleId != s.guildId)
    && r.botId != Some(s.botUserId)
    && ADMINISTRATOR !in BasePermissions(s, TestRoles(s, r))
    && CanView(s, TestRoles(s, r), None)
  }

  predicate MemberLeaks(s: Snapshot, m: Member) {
    && m.userId != s.botUserId && m.userId != s.ownerId
    && s.adminRoleId !in m.roles
    && ADMINISTRATOR !in BasePermissions(s, ToSet(m.roles))
    && CanView(s, ToSet(m.roles), Some(m.userId))
  }

  function MissingBotPermissions(s: Snapshot): Permissions {
    BOT_PERMISSIONS - EffectivePermissions(s, ToSet(s.botMember.roles), Some(s.botMember.userId))
  }

  /** What each reported issue says about the snapshot. */
  predicate Holds(s: Snapshot, commandNames: seq<string>, i: Issue) {
    if MalformedSubject(s).Some? then i == MalformedData(MalformedSubject(s).value)
    else match i
      case MalformedData(x) => (x == s.guildId && !KnownRole(s, x)) || (x == s.botUserId && s.botMember.userId != x)
      case AdminRoleIsEveryone(x) => x == s.guildId == s.adminRoleId
      case AdminRoleMissing(x) => x == s.adminRoleId && !KnownRole(s, x)
      case AdminRoleCannotView(x) => x == s.adminRoleId != s.guildId && KnownRole(s, x) && !CanView(s, {x}, None)
      case LeakedRole(x) => exists r :: r in s.roles && r.id == x && RoleLeaks(s, r)
      case MappedAdminMissing(x) => x in s.mappedAdminUserIds && MemberOf(s, x).None?
      case MappedAdminRoleMissing(x) => x in s.mappedAdminUserIds && MemberOf(s, x).Some? && s.adminRoleId !in MemberOf(s, x).value.roles
      case ExplicitMemberMissing(x) => x in ExplicitIds(s) && MemberOf(s, x).None?
      case LeakedMember(x) => x in ExplicitIds(s) && MemberOf(s, x).Some? && MemberLeaks(s, MemberOf(s, x).value)
      case BotPermissionsMissing(p) => p == MissingBotPermissions(s) != {}
      case CommandMissing(n) => n in commandNames && n !in s.registeredCommandNames
  }

  predicate NamedRoleIssue(s: Snapshot, i: Issue) {
    || (i == MalformedData(s.guildId) && !KnownRole(s, s.guildId))
    || (i == AdminRoleIsEveryone(s.guildId) && s.adminRoleId == s.guildId)
    || (i == AdminRoleMissing(s.adminRoleId) && !KnownRole(s, s.adminRoleId))
    || (i == AdminRoleCannotView(s.adminRoleId) && KnownRole(s, s.adminRoleId) && s.adminRoleId != s.guildId
        && !CanView(s, {s.adminRoleId}, None))
  }

  predicate RoleIssue(s: Snapshot, i: Issue) {
    i.LeakedRole? && exists r :: r in s.roles && r.id == i.subject && RoleLeaks(s, r)
  }

  predicate MappedAdminIssue(s: Snapshot, i: Issue) {
    || (i.MappedAdminMissing? && i.subject in s.mappedAdminUserIds && MemberOf(s, i.subject).None?)
    || (i.MappedAdminRoleMissing? && i.subject in s.mappedAdminUserIds && MemberOf(s, i.subject).Some?
        && s.adminRoleId !in MemberOf(s, i.subject).value.roles)
  }

  predicate ExplicitMemberIssue(s: Snapshot, i: Issue) {
    || (i.ExplicitMemberMissing? && i.subject in ExplicitIds(s) && MemberOf(s, i.subject).None?)
    || (i.LeakedMember? && i.subject in ExplicitIds(s) && MemberOf(s, i.subject).Some? && MemberLeaks(s, MemberOf(s, i.subject).value))
  }

  predicate BotIssue(s: Snapshot, i: Issue) {
    || (i == MalformedData(s.botUserId) && s.botMember.userId != s.botUserId)
    || (i == BotPermissionsMissing(MissingBotPermissions(s)) && MissingBotPermissions(s) != {})
  }

  predicate CommandIssue(s: Snapshot, commandNames: seq<string>, i: Issue) {
    i.CommandMissing? && i.name in commandNames && i.name !in s.registeredCommandNames
  }

  /** Every issue is looked for by one of the six checks. */
  lemma ChecksCoverIssues(s: Snapshot, commandNames: seq<string>, i: Issue)
    requires MalformedSubject(s).None?
    ensures Holds(s, commandNames, i) <==>
              || NamedRoleIssue(s, i) || RoleIssue(s, i) || MappedAdminIssue(s, i)
              || ExplicitMemberIssue(s, i) || BotIssue(s, i) || CommandIssue(s, commandNames, i)
  {
    match i case _ => {}
  }

  // ---------------------------------------------------------------- what the checks look at

  function RoleIds(roles: seq<Role>): seq<Id> { seq(|roles|, i requires 0 <= i < |roles| => roles[i].id) }

  function UserIds(members: seq<Member>): seq<Id> { seq(|members|, i requires 0 <= i < |members| => members[i].userId) }

  /** No identifier comes twice exactly when there are as many different ones as there are in all. */
  lemma {:induction false} AsManyAsDifferent(ids: seq<Id>)
    ensures |ToSet(ids)| <= |ids|
    ensures |ToSet(ids)| == |ids| <==> forall i, k :: 0 <= i < k < |ids| ==> ids[i] != ids[k]
  {
    if ids != [] {
      var front, last := ids[..|ids| - 1], ids[|ids| - 1];
      AsManyAsDifferent(front);
      assert ids == front + [last];
      assert ToSet(ids) == ToSet(front) + {last};
      if last in front {
        assert ToSet(ids) == ToSet(front);
        var k :| 0 <= k < |front| && front[k] == last;
        assert ids[k] == ids[|ids| - 1];
      }
    }
  }

  /** The channel is one of the guild's, no category itself, and its category is the one it names. */
  predicate InItsCategory(s: Snapshot) {
    && s.channel.guildId == s.guildId && s.channel.kind != 4
    && (s.channel.parentId == None <==> s.category == None)
    && (s.category.Some? ==> s.category.value.kind == 4 && s.category.value.guildId == s.guildId && Some(s.category.value.id) == s.channel.parentId)
  }

  predicate OnlyDecimals(s: Snapshot) {
    && (forall r :: r in s.roles ==> IsDecimal(r.permissions))
    && (forall o :: o in s.channel.overwrites ==> IsDecimal(o.allow) && IsDecimal(o.deny))
    && (s.category.Some? ==> forall o :: o in s.category.value.overwrites ==> IsDecimal(o.allow) && IsDecimal(o.deny))
  }

  /** The role that an overwrite, or else a member, has and the guild has not. */
  ghost predicate IsUnknown(s: Snapshot, id: Id) {
    id !in ToSet(RoleIds(s.roles))
    && ((exists o :: (o in s.channel.overwrites || (s.category.Some? && o in s.category.value.overwrites)) && o.kind == ForRole && o.id == id)
        || exists m :: (m in s.explicitMembers || m == s.botMember) && id in m.roles)
  }

  lemma DistinctIds(s: Snapshot)
    ensures IdsUnique(s) <==>
            |ToSet(RoleIds(s.roles))| == |s.roles| && |ToSet(UserIds(s.explicitMembers))| == |s.explicitMembers|
  {
    var roles, users := RoleIds(s.roles), UserIds(s.explicitMembers);
    AsManyAsDifferent(roles);
    AsManyAsDifferent(users);
    if IdsUnique(s) {
      assert forall i, k :: 0 <= i < k < |roles| ==> roles[i] != roles[k];
      assert forall i, k :: 0 <= i < k < |users| ==> users[i] != users[k];
    } else if |ToSet(roles)| == |roles| && |ToSet(users)| == |users| {
      forall i, k | 0 <= i < k < |s.roles| ensures s.roles[i].id != s.roles[k].id { assert roles[i] != roles[k]; }
      forall i, k | 0 <= i < k < |s.explicitMembers| ensures s.explicitMembers[i].userId != s.explicitMembers[k].userId {
        assert users[i] != users[k];
      }
    }
  }

  /** When a snapshot is malformed, and what is blamed for it. */
  lemma MalformedIs(s: Snapshot)
    ensures var blamed := MalformedSubject(s);
            if !InItsCategory(s) then blamed == Some(s.channel.id)
            else if |ToSet(RoleIds(s.roles))| != |s.roles| || |ToSet(UserIds(s.explicitMembers))| != |s.explicitMembers| || !OnlyDecimals(s)
            then blamed == Some(s.guildId)
            else if exists id :: IsUnknown(s, id) then blamed.Some? && IsUnknown(s, blamed.value)
            else blamed == None
  {
    DistinctIds(s);
    assert forall o :: o in AllOverwrites(s) <==> o in s.channel.overwrites || (s.category.Some? && o in s.category.value.overwrites);
    forall id ensures KnownRole(s, id) <==> id in ToSet(RoleIds(s.roles)) { KnownIsListed(s, id); }
    UnknownOverwriteIs(s, AllOverwrites(s));
    UnknownMemberRoleIs(s, s.explicitMembers + [s.botMember]);
    assert forall m :: m in s.explicitMembers + [s.botMember] <==> m in s.explicitMembers || m == s.botMember;
    assert ShapeOk(s) <==> InItsCategory(s);
    assert MasksAreDecimal(s) <==> OnlyDecimals(s);
    if ShapeOk(s) && IdsUnique(s) && MasksAreDecimal(s) {
      if MalformedSubject(s).Some? {
        assert IsUnknown(s, MalformedSubject(s).value);
      } else {
        NothingUnknown(s);
      }
    }
  }

  lemma NothingUnknown(s: Snapshot)
    requires MalformedSubject(s).None?
    ensures forall id :: !IsUnknown(s, id)
  {
    assert UnknownMemberRole(s, s.explicitMembers + [s.botMember]).None?;
    assert forall o :: o in AllOverwrites(s) <==> o in s.channel.overwrites || (s.category.Some? && o in s.category.value.overwrites);
    assert forall m :: m in s.explicitMembers || m == s.botMember ==> m in s.explicitMembers + [s.botMember];
    forall id ensures !IsUnknown(s, id) { KnownIsListed(s, id); }
  }

  lemma KnownIsListed(s: Snapshot, id: Id)
    ensures KnownRole(s, id) <==> id in ToSet(RoleIds(s.roles))
  {
    if KnownRole(s, id) {
      var i :| 0 <= i < |s.roles| && s.roles[i].id == id;
      assert RoleIds(s.roles)[i] == id;
    }
  }

  lemma {:induction false} UnknownOverwriteIs(s: Snapshot, overwrites: seq<Overwrite>)
    ensures var r := UnknownOverwriteRole(s, overwrites);
            r.Some? ==> !KnownRole(s, r.value) && exists o :: o in overwrites && o.kind == ForRole && o.id == r.value
  {
    if overwrites != [] { UnknownOverwriteIs(s, overwrites[1..]); }
  }

  lemma {:induction false} UnknownRoleIs(s: Snapshot, ids: seq<Id>)
    ensures var r := UnknownRole(s, ids); r.Some? ==> !KnownRole(s, r.value) && r.value in ids
  {
    if ids != [] { UnknownRoleIs(s, ids[1..]); }
  }

  lemma {:induction false} UnknownMemberRoleIs(s: Snapshot, members: seq<Member>)
    ensures var r := UnknownMemberRole(s, members);
            r.Some? ==> !KnownRole(s, r.value) && exists m :: m in members && r.value in m.roles
  {
    if members != [] {
      UnknownRoleIs(s, members[0].roles);
      UnknownMemberRoleIs(s, members[1..]);
    }
  }

  /** Who is looked up: the bot's own membership, or the listed member with the identifier. */
  lemma MemberOfIs(s: Snapshot, id: Id)
    ensures id == s.botMember.userId ==> MemberOf(s, id) == Some(s.botMember)
    ensures id != s.botMember.userId ==>
              if id in ToSet(UserIds(s.explicitMembers))
              then MemberOf(s, id).Some? && MemberOf(s, id).value in s.explicitMembers && MemberOf(s, id).value.userId == id
              else MemberOf(s, id) == None
  {
    var all := s.explicitMembers + [s.botMember];
    assert all[..|all| - 1] == s.explicitMembers;
    FindsMember(s.explicitMembers, id);
  }

  lemma {:induction false} FindsMember(members: seq<Member>, id: Id)
    ensures if id in ToSet(UserIds(members))
            then FindMember(members, id).Some? && FindMember(members, id).value in members && FindMember(members, id).value.userId == id
            else FindMember(members, id) == None
  {
    if members != [] {
      var front := members[..|members| - 1];
      FindsMember(front, id);
      assert members == front + [members[|members| - 1]];
      assert UserIds(members) == UserIds(front) + [members[|members| - 1].userId];
    }
  }

  /** Sees, by what the overwrites say one after the other. */
  ghost predicate Sees(s: Snapshot, roleIds: set<Id>, memberId: Option<Id>) {
    if memberId == Some(s.ownerId) || RoleGives(s, roleIds, ADMINISTRATOR) then true
    else
      There(s.channel, s.guildId, roleIds, memberId, VIEW_CHANNEL,
            if s.category.Some? then There(s.category.value, s.guildId, roleIds, memberId, VIEW_CHANNEL, RoleGives(s, roleIds, VIEW_CHANNEL))
            else RoleGives(s, roleIds, VIEW_CHANNEL))
  }

  /** A role is reported exactly when it is neither the administrators' nor the bot's, and somebody with
      this role alone sees the channel without being an administrator. */
  lemma LeakedRolesAre(s: Snapshot, commandNames: seq<string>, id: Id)
    requires MalformedSubject(s).None?
    ensures Holds(s, commandNames, LeakedRole(id)) <==>
            exists r :: r in s.roles && r.id == id && !(id == s.adminRoleId && id != s.guildId) && r.botId != Some(s.botUserId)
                        && !RoleGives(s, {id}, ADMINISTRATOR) && Sees(s, if id == s.guildId then {} else {id}, None)
  {
    forall r | r in s.roles && r.id == id
      ensures RoleLeaks(s, r) <==>
              !(id == s.adminRoleId && id != s.guildId) && r.botId != Some(s.botUserId)
              && !RoleGives(s, {id}, ADMINISTRATOR) && Sees(s, if id == s.guildId then {} else {id}, None)
    {
      PermissionsDecide(s, TestRoles(s, r), None, VIEW_CHANNEL);
      BaseDecides(s, TestRoles(s, r), ADMINISTRATOR);
      assert RoleGives(s, {id}, ADMINISTRATOR) <==> RoleGives(s, TestRoles(s, r), ADMINISTRATOR);
    }
  }

  /** A member with an overwrite is reported exactly when neither the bot, the owner nor an administrator of
      either kind, and sees the channel. */
  lemma LeakedMembersAre(s: Snapshot, commandNames: seq<string>, id: Id)
    requires MalformedSubject(s).None?
    ensures Holds(s, commandNames, LeakedMember(id)) <==>
            id in ExplicitIds(s) && MemberOf(s, id).Some?
            && (var m := MemberOf(s, id).value;
                && m.userId != s.botUserId && m.userId != s.ownerId && s.adminRoleId !in m.roles
                && !RoleGives(s, ToSet(m.roles), ADMINISTRATOR) && Sees(s, ToSet(m.roles), Some(m.userId)))
  {
    if MemberOf(s, id).Some? {
      var m := MemberOf(s, id).value;
      PermissionsDecide(s, ToSet(m.roles), Some(m.userId), VIEW_CHANNEL);
      BaseDecides(s, ToSet(m.roles), ADMINISTRATOR);
    }
  }

  method CheckRoles(s: Snapshot) returns (issues: seq<Issue>)
    ensures forall i :: i in issues <==> RoleIssue(s, i)
  {
    issues := [];
    for k := 0 to |s.roles|
      invariant forall i :: i in issues <==> i.LeakedRole? && exists r :: r in s.roles[..k] && r.id == i.subject && RoleLeaks(s, r)
    {
      assert s.roles[..k + 1] == s.roles[..k] + [s.roles[k]];
      if RoleLeaks(s, s.roles[k]) { issues := issues + [LeakedRole(s.roles[k].id)]; }
    }
    assert s.roles[..|s.roles|] == s.roles;
  }

  method CheckMappedAdmins(s: Snapshot) returns (issues: seq<Issue>)
    ensures forall i :: i in issues <==> MappedAdminIssue(s, i)
  {
    issues := [];
    for k := 0 to |s.mappedAdminUserIds|
      invariant forall i :: i in issues <==>
                  || (i.MappedAdminMissing? && i.subject in s.mappedAdminUserIds[..k] && MemberOf(s, i.subject).None?)
                  || (i.MappedAdminRoleMissing? && i.subject in s.mappedAdminUserIds[..k] && MemberOf(s, i.subject).Some?
                      && s.adminRoleId !in MemberOf(s, i.subject).value.roles)
    {
      var id := s.mappedAdminUserIds[k];
      assert s.mappedAdminUserIds[..k + 1] == s.mappedAdminUserIds[..k] + [id];
      match MemberOf(s, id) {
        case None => issues := issues + [MappedAdminMissing(id)];
        case Some(m) => if s.adminRoleId !in m.roles { issues := issues + [MappedAdminRoleMissing(id)]; }
      }
    }
    assert s.mappedAdminUserIds[..|s.mappedAdminUserIds|] == s.mappedAdminUserIds;
  }

  method CheckExplicitMembers(s: Snapshot) returns (issues: seq<Issue>)
    ensures forall i :: i in issues <==> ExplicitMemberIssue(s, i)
  {
    issues := [];
    var todo := ExplicitIds(s);
    while todo != {}
      invariant todo <= ExplicitIds(s)
      invariant forall i :: i in issues <==>
                  || (i.ExplicitMemberMissing? && i.subject in ExplicitIds(s) - todo && MemberOf(s, i.subject).None?)
                  || (i.LeakedMember? && i.subject in ExplicitIds(s) - todo && MemberOf(s, i.subject).Some? && MemberLeaks(s, MemberOf(s, i.subject).value))
      decreases todo
    {
      var id :| id in todo;
      todo := todo - {id};
      match MemberOf(s, id) {
        case None => issues := issues + [ExplicitMemberMissing(id)];
        case Some(m) => if MemberLeaks(s, m) { issues := issues + [LeakedMember(id)]; }
      }
    }
  }

  method CheckCommands(s: Snapshot, commandNames: seq<string>) returns (issues: seq<Issue>)
    ensures forall i :: i in issues <==> CommandIssue(s, commandNames, i)
  {
    issues := [];
    for k := 0 to |commandNames|
      invariant forall i :: i in issues <==> i.CommandMissing? && i.name in commandNames[..k] && i.name !in s.registeredCommandNames
    {
      assert commandNames[..k + 1] == commandNames[..k] + [commandNames[k]];
      if commandNames[k] !in s.registeredCommandNames { issues := issues + [CommandMissing(commandNames[k])]; }
    }
    assert commandNames[..|commandNames|] == commandNames;
  }

  method CheckNamedRoles(s: Snapshot) returns (issues: seq<Issue>)
    ensures forall i :: i in issues <==> NamedRoleIssue(s, i)
  {
    issues := [];
    if !KnownRole(s, s.guildId) { issues := issues + [MalformedData(s.guildId)]; }
    if s.adminRoleId == s.guildId { issues := issues + [AdminRoleIsEveryone(s.guildId)]; }
    if !KnownRole(s, s.adminRoleId) { issues := issues + [AdminRoleMissing(s.adminRoleId)]; }
    if KnownRole(s, s.adminRoleId) && s.adminRoleId != s.guildId && !CanView(s, {s.adminRoleId}, None) {
      issues := issues + [AdminRoleCannotView(s.adminRoleId)];
    }
  }

  method CheckBot(s: Snapshot) returns (issues: seq<Issue>)
    ensures forall i :: i in issues <==> BotIssue(s, i)
  {
    issues := [];
    if s.botMember.userId != s.botUserId { issues := issues + [MalformedData(s.botUserId)]; }
    if MissingBotPermissions(s) != {} { issues := issues + [BotPermissionsMissing(MissingBotPermissions(s))]; }
  }

  /** Exactly the issues that hold are reported. */
  method VerifyDiscordSetup(s: Snapshot, commandNames: seq<string>) returns (issues: seq<Issue>, ok: bool)
    ensures forall i :: i in issues <==> Holds(s, commandNames, i)
    ensures ok <==> forall i :: !Holds(s, commandNames, i)
  {
    var malformed := MalformedSubject(s);
    if malformed.Some? {
      issues, ok := [MalformedData(malformed.value)], false;
      assert issues[0] in issues;
      return;
    }
    var namedRoleIssues := CheckNamedRoles(s);
    var roleIssues := CheckRoles(s);
    var adminIssues := CheckMappedAdmins(s);
    var memberIssues := CheckExplicitMembers(s);
    var botIssues := CheckBot(s);
    var commandIssues := CheckCommands(s, commandNames);
    issues := namedRoleIssues + roleIssues + adminIssues + memberIssues + botIssues + commandIssues;
    ok := issues == [];
    forall i ensures i in issues <==> Holds(s, commandNames, i) {
      ChecksCoverIssues(s, commandNames, i);
    }
    if !ok { assert issues[0] in issues; }
  }

  // ---------------------------------------------------------------- one role at a time is enough

  /** Roles a member may hold without being meant to see the channel. */
  ghost predicate Ordinary(s: Snapshot, roleIds: set<Id>) {
    forall r :: r in s.roles && r.id in roleIds ==>
      r.id != s.adminRoleId && r.botId != Some(s.botUserId) && ADMINISTRATOR !in Bits(r.permissions)
  }

  ghost predicate EveryoneLacksAdministrator(s: Snapshot) {
    forall r :: r in s.roles && r.id == s.guildId ==> ADMINISTRATOR !in Bits(r.permissions)
  }

  /** Discord never ties @everyone to a bot. */
  ghost predicate EveryoneIsNobodysBot(s: Snapshot) {
    forall r :: r in s.roles && r.id == s.guildId ==> r.botId != Some(s.botUserId)
  }

  ghost predicate NoMemberOverwrite(s: Snapshot, memberId: Option<Id>) {
    memberId != Some(s.ownerId) && (memberId.Some? ==> memberId.value !in ExplicitIds(s))
  }

  ghost predicate Approved(s: Snapshot, commandNames: seq<string>) {
    forall i :: !Holds(s, commandNames, i)
  }

  lemma {:induction false} FirstOverwriteIsListed(overwrites: seq<Overwrite>, kind: OverwriteKind, id: Id)
    ensures var f := FirstOverwrite(overwrites, kind, id); f.Some? ==> f.value in overwrites && f.value.kind == kind && f.value.id == id
  {
    if overwrites != [] { FirstOverwriteIsListed(overwrites[1..], kind, id); }
  }

  lemma NoOverwriteNoEffect(s: Snapshot, memberId: Option<Id>, roleIds: set<Id>)
    requires NoMemberOverwrite(s, memberId)
    ensures CanView(s, roleIds, memberId) == CanView(s, roleIds, None)
  {
    if memberId.Some? {
      FirstOverwriteIsListed(s.channel.overwrites, ForMember, memberId.value);
      assert forall o :: o in s.channel.overwrites ==> o in AllOverwrites(s);
      if s.category.Some? {
        FirstOverwriteIsListed(s.category.value.overwrites, ForMember, memberId.value);
        assert forall o :: o in s.category.value.overwrites ==> o in AllOverwrites(s);
      }
    }
  }

  /** The channel level lets the permission through for a smaller set of roles, because a smaller
      set is denied less. */
  lemma LevelPasses(p: Permissions, q: Permissions, c: Channel, guildId: Id, few: set<Id>, many: set<Id>)
    requires few <= many
    requires VIEW_CHANNEL in ApplyOverwrites(p, c, guildId, many, None)
    requires VIEW_CHANNEL !in RoleAllows(c.overwrites, guildId, many)
    requires VIEW_CHANNEL in p ==> VIEW_CHANNEL in q
    ensures VIEW_CHANNEL in ApplyOverwrites(q, c, guildId, few, None)
  {
    assert RoleDenies(c.overwrites, guildId, few) <= RoleDenies(c.overwrites, guildId, many);
  }

  lemma AllowedByOneRole(c: Channel, guildId: Id, roleIds: set<Id>) returns (one: Id)
    requires VIEW_CHANNEL in RoleAllows(c.overwrites, guildId, roleIds)
    ensures one in roleIds && one != guildId && exists o :: o in c.overwrites && o.kind == ForRole && o.id == one
    ensures VIEW_CHANNEL in RoleAllows(c.overwrites, guildId, {one})
  {
    var o :| o in c.overwrites && Applies(o, guildId, roleIds) && VIEW_CHANNEL in Bits(o.allow);
    one := o.id;
    assert Applies(o, guildId, {one});
  }

  function Inherited(s: Snapshot, roleIds: set<Id>): Permissions {
    if s.category.Some? then ApplyOverwrites(BasePermissions(s, roleIds), s.category.value, s.guildId, roleIds, None)
    else BasePermissions(s, roleIds)
  }

  /** Whatever a set of roles inherits from the category, one role (or @everyone alone) inherits. */
  lemma InheritedByOneRole(s: Snapshot, roleIds: set<Id>) returns (few: set<Id>)
    requires MalformedSubject(s).None?
    requires VIEW_CHANNEL in Inherited(s, roleIds)
    ensures few <= roleIds && VIEW_CHANNEL in Inherited(s, few)
    ensures few == {} || exists r :: r in s.roles && r.id != s.guildId && few == {r.id}
  {
    if s.category.Some? && VIEW_CHANNEL in RoleAllows(s.category.value.overwrites, s.guildId, roleIds) {
      var one := AllowedByOneRole(s.category.value, s.guildId, roleIds);
      assert forall o :: o in s.category.value.overwrites ==> o in AllOverwrites(s);
      few := {one};
    } else {
      few := {};
      if VIEW_CHANNEL in BasePermissions(s, roleIds) {
        var r :| r in s.roles && (r.id == s.guildId || r.id in roleIds) && VIEW_CHANNEL in Bits(r.permissions);
        few := if r.id == s.guildId then {} else {r.id};
      }
      if s.category.Some? {
        LevelPasses(BasePermissions(s, roleIds), BasePermissions(s, few), s.category.value, s.guildId, few, roleIds);
      }
    }
  }

  lemma ViewableByOneRole(s: Snapshot, roleIds: set<Id>) returns (few: set<Id>)
    requires MalformedSubject(s).None?
    requires ADMINISTRATOR !in BasePermissions(s, roleIds) && CanView(s, roleIds, None)
    ensures few <= roleIds && ADMINISTRATOR !in BasePermissions(s, few) && CanView(s, few, None)
    ensures few == {} || exists r :: r in s.roles && r.id != s.guildId && few == {r.id}
  {
    if VIEW_CHANNEL in RoleAllows(s.channel.overwrites, s.guildId, roleIds) {
      var one := AllowedByOneRole(s.channel, s.guildId, roleIds);
      assert forall o :: o in s.channel.overwrites ==> o in AllOverwrites(s);
      few := {one};
    } else {
      few := {};
      if VIEW_CHANNEL in Inherited(s, roleIds) { few := InheritedByOneRole(s, roleIds); }
      LevelPasses(Inherited(s, roleIds), Inherited(s, few), s.channel, s.guildId, few, roleIds);
    }
    assert BasePermissions(s, few) <= BasePermissions(s, roleIds);
  }

  /** Testing the roles one by one finds every leak that some combination of roles opens. */
  lemma ApprovedHidesFromRoleSets(s: Snapshot, commandNames: seq<string>, roleIds: set<Id>, memberId: Option<Id>)
    requires Approved(s, commandNames) && EveryoneLacksAdministrator(s) && EveryoneIsNobodysBot(s)
    requires Ordinary(s, roleIds) && NoMemberOverwrite(s, memberId)
    ensures !CanView(s, roleIds, memberId)
  {
    if CanView(s, roleIds, memberId) {
      NoOverwriteNoEffect(s, memberId, roleIds);
      if MalformedSubject(s).Some? { assert Holds(s, commandNames, MalformedData(MalformedSubject(s).value)); }
      assert !Holds(s, commandNames, MalformedData(s.guildId));
      assert !Holds(s, commandNames, AdminRoleIsEveryone(s.guildId));
      var few := ViewableByOneRole(s, roleIds);
      var r :| r in s.roles && TestRoles(s, r) == few && (r.id == s.guildId || r.id in roleIds);
      assert RoleLeaks(s, r);
      assert Holds(s, commandNames, LeakedRole(r.id));
    }
  }

  /** For an approved channel, hiding it from every ordinary role set is the same as @everyone not
      being an administrator: the one thing the verifier does not look at. */
  lemma ApprovedHidesIffEveryoneIsNoAdministrator(s: Snapshot, commandNames: seq<string>)
    requires Approved(s, commandNames) && EveryoneIsNobodysBot(s)
    ensures (forall roleIds, memberId :: Ordinary(s, roleIds) && NoMemberOverwrite(s, memberId) ==> !CanView(s, roleIds, memberId))
            <==> EveryoneLacksAdministrator(s)
  {
    if EveryoneLacksAdministrator(s) {
      forall roleIds, memberId | Ordinary(s, roleIds) && NoMemberOverwrite(s, memberId) ensures !CanView(s, roleIds, memberId) {
        ApprovedHidesFromRoleSets(s, commandNames, roleIds, memberId);
      }
    } else {
      assert Ordinary(s, {}) && NoMemberOverwrite(s, None);
      assert ADMINISTRATOR in BasePermissions(s, {});
      assert CanView(s, {}, None);
    }
  }

  /** Every guild member who is not the owner, the bot, or the holder of the administrator role, of
      the bot's role or of an ADMINISTRATOR role is kept out; members with an overwrite of their own
      are covered when the snapshot lists the roles they really hold. */
  lemma ApprovedChannelIsPrivate(s: Snapshot, commandNames: seq<string>, m: Member)
    requires Approved(s, commandNames) && EveryoneLacksAdministrator(s) && EveryoneIsNobodysBot(s)
    requires m.userId != s.ownerId && m.userId != s.botUserId && s.adminRoleId !in m.roles
    requires Ordinary(s, ToSet(m.roles))
    requires m.userId in ExplicitIds(s) ==> MemberOf(s, m.userId) in {None, Some(m)}
    ensures !CanView(s, ToSet(m.roles), Some(m.userId))
  {
    if MalformedSubject(s).Some? { assert Holds(s, commandNames, MalformedData(MalformedSubject(s).value)); }
    if m.userId in ExplicitIds(s) {
      assert !Holds(s, commandNames, ExplicitMemberMissing(m.userId));
      assert !Holds(s, commandNames, LeakedMember(m.userId));
    } else {
      ApprovedHidesFromRoleSets(s, commandNames, ToSet(m.roles), Some(m.userId));
    }
  }
}
