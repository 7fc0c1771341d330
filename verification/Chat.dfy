/** Support chat: who gets a conversation, and the list of conversations with
    each partner shown once. */
module Chat {
  import opened Common

  type UserId = string

  datatype User = User(id: UserId, isAdmin: bool, isDeleted: bool)

  datatype Conversation = Conversation(id: nat, participants: seq<UserId>, updatedAt: int)

  datatype ChatError = SupportOffline | UserNotFound

  datatype State = State(users: seq<User>, rows: seq<Conversation>)

  /** Accounts appear under new ids, are deleted by a flag and revived. */
  datatype Event =
    | ChatStart(user: UserId, target: Option<UserId>, now: int)
    | Message(conversation: nat, now: int)
    | Join(user: UserId, isAdmin: bool)
    | MarkUser(user: UserId, isDeleted: bool)

  // ----- Users -------------------------------------------------------------------

  predicate IsUser(users: seq<User>, id: UserId) {
    exists u :: u in users && u.id == id
  }

  /** Roles are SUPER_ADMIN and USER; an unknown id is nobody's admin. */
  predicate IsAdmin(users: seq<User>, id: UserId) {
    exists u :: u in users && u.id == id && u.isAdmin
  }

  function FirstAdmin(users: seq<User>, deletedToo: bool): (r: Option<UserId>)
    ensures r.Some? ==> IsAdmin(users, r.value)
  {
    if users == [] then None
    else if users[0].isAdmin && (deletedToo || !users[0].isDeleted) then Some(users[0].id)
    else FirstAdmin(users[1..], deletedToo)
  }

  function GetSuperAdminUser(users: seq<User>): (r: Option<UserId>)
    ensures r.Some? ==> IsAdmin(users, r.value)
  {
    var active := FirstAdmin(users, false);
    if active.Some? then active else FirstAdmin(users, true)
  }

  // ----- Starting conversations ----------------------------------------------------

  function Having(rows: seq<Conversation>, user: UserId): seq<Conversation> {
    if rows == [] then []
    else (if user in rows[0].participants then [rows[0]] else []) + Having(rows[1..], user)
  }

  /** The row `findOne(...).sort({updatedAt: -1})` gives. */
  function Latest(rows: seq<Conversation>): Conversation
    requires rows != []
  {
    if |rows| == 1 then rows[0]
    else
      var rest := Latest(rows[1..]);
      if rest.updatedAt > rows[0].updatedAt then rest else rows[0]
  }

  function StartUserSupport(users: seq<User>, rows: seq<Conversation>, user: UserId, now: int)
    : Result<seq<Conversation>, ChatError>
  {
    if Having(rows, user) != [] then Ok(rows)
    else match GetSuperAdminUser(users)
         case None => Err(SupportOffline)
         case Some(admin) => Ok(rows + [Conversation(|rows|, [user, admin], now)])
  }

  function StartAdminUser(users: seq<User>, rows: seq<Conversation>, admin: UserId, target: UserId, now: int)
    : Result<seq<Conversation>, ChatError>
  {
    if !IsUser(users, target) then Err(UserNotFound)
    else if Having(rows, target) != [] then Ok(rows)
    else Ok(rows + [Conversation(|rows|, [admin, target], now)])
  }

  /** The `chat:start` handler. */
  function Started(users: seq<User>, rows: seq<Conversation>, user: UserId, target: Option<UserId>, now: int)
    : Result<seq<Conversation>, ChatError>
  {
    if IsAdmin(users, user)
    then if target.Some? then StartAdminUser(users, rows, user, target.value, now) else Ok(rows)
    else StartUserSupport(users, rows, user, now)
  }

  function Marked(users: seq<User>, id: UserId, isDeleted: bool): seq<User> {
    seq(|users|, i requires 0 <= i < |users| => if users[i].id == id then users[i].(isDeleted := isDeleted) else users[i])
  }

  /** A refused start changes nothing; a message touches its conversation. */
  function Next(s: State, ev: Event): State {
    match ev
    case ChatStart(user, target, now) =>
      (match Started(s.users, s.rows, user, target, now)
       case Ok(rows) => s.(rows := rows)
       case Err(_) => s)
    case Message(c, now) => if c < |s.rows| then s.(rows := s.rows[c := s.rows[c].(updatedAt := now)]) else s
    case Join(user, isAdmin) => if IsUser(s.users, user) then s else s.(users := s.users + [User(user, isAdmin, false)])
    case MarkUser(user, isDeleted) => s.(users := Marked(s.users, user, isDeleted))
  }

  function Run(s: State, evs: seq<Event>): State
    decreases |evs|
  {
    if evs == [] then s else Run(Next(s, evs[0]), evs[1..])
  }

  /** Ids are positions; every conversation is between two users, one of them an
      admin; two conversations share no user who is not an admin. */
  ghost predicate Valid(users: seq<User>, rows: seq<Conversation>) {
    && (forall i :: 0 <= i < |rows| ==>
          && rows[i].id == i && |rows[i].participants| == 2
          && (IsAdmin(users, rows[i].participants[0]) || IsAdmin(users, rows[i].participants[1])))
    && (forall i, j, u :: 0 <= i < j < |rows| && u in rows[i].participants && u in rows[j].participants ==> IsAdmin(users, u))
  }

  lemma {:induction false} HavingMembers(rows: seq<Conversation>, user: UserId)
    ensures forall c :: c in Having(rows, user) <==> c in rows && user in c.participants
  {
    if rows != [] {
      HavingMembers(rows[1..], user);
      assert rows == [rows[0]] + rows[1..];
    }
  }

  lemma CreateKeepsValid(users: seq<User>, rows: seq<Conversation>, a: UserId, b: UserId, newcomer: UserId, now: int)
    requires Valid(users, rows) && Having(rows, newcomer) == []
    requires newcomer in [a, b] && (forall u :: u in [a, b] && u != newcomer ==> IsAdmin(users, u))
    requires IsAdmin(users, a) || IsAdmin(users, b)
    ensures Valid(users, rows + [Conversation(|rows|, [a, b], now)])
  {
    HavingMembers(rows, newcomer);
    assert forall i :: 0 <= i < |rows| ==> rows[i] in rows;
  }

  lemma {:induction false} StartKeepsValid(users: seq<User>, rows: seq<Conversation>, user: UserId, target: Option<UserId>, now: int)
    requires Valid(users, rows) && Started(users, rows, user, target, now).Ok?
    ensures Valid(users, Started(users, rows, user, target, now).value)
  {
    if Started(users, rows, user, target, now).value != rows {
      if IsAdmin(users, user) {
        CreateKeepsValid(users, rows, user, target.value, target.value, now);
      } else {
        CreateKeepsValid(users, rows, user, GetSuperAdminUser(users).value, user, now);
      }
    }
  }

  lemma {:induction false} TouchKeepsValid(users: seq<User>, rows: seq<Conversation>, c: nat, now: int)
    requires Valid(users, rows) && c < |rows|
    ensures Valid(users, rows[c := rows[c].(updatedAt := now)])
  {
    var next := rows[c := rows[c].(updatedAt := now)];
    assert forall i :: 0 <= i < |rows| ==> next[i].participants == rows[i].participants;
  }

  /** Nobody stops being an admin. */
  lemma {:induction false} AdminsStay(s: State, ev: Event, id: UserId)
    requires IsAdmin(s.users, id)
    ensures IsAdmin(Next(s, ev).users, id)
  {
    var i :| 0 <= i < |s.users| && s.users[i].id == id && s.users[i].isAdmin;
    var u := Next(s, ev).users[i];
    assert u in Next(s, ev).users && u.id == id && u.isAdmin;
  }

  lemma {:induction false} NextKeepsValid(s: State, ev: Event)
    requires Valid(s.users, s.rows)
    ensures Valid(Next(s, ev).users, Next(s, ev).rows)
  {
    hide IsAdmin, IsUser, Marked, Started;
    match ev {
      case ChatStart(user, target, now) =>
        if Started(s.users, s.rows, user, target, now).Ok? {
          StartKeepsValid(s.users, s.rows, user, target, now);
        }
      case Message(c, now) =>
        if c < |s.rows| {
          TouchKeepsValid(s.users, s.rows, c, now);
        }
      case _ =>
        forall id | IsAdmin(s.users, id) ensures IsAdmin(Next(s, ev).users, id) {
          AdminsStay(s, ev, id);
        }
    }
  }

  lemma {:induction false} RunKeepsValid(s: State, evs: seq<Event>)
    requires Valid(s.users, s.rows)
    ensures Valid(Run(s, evs).users, Run(s, evs).rows)
    decreases |evs|
  {
    if evs != [] {
      NextKeepsValid(s, evs[0]);
      RunKeepsValid(Next(s, evs[0]), evs[1..]);
    }
  }

  /** After any run of starts, messages and accounts that come and go, a user who is
      not an admin is in at most one conversation. */
  lemma AtMostOneConversation(users: seq<User>, evs: seq<Event>, user: UserId, i: nat, j: nat)
    requires var s := Run(State(users, []), evs);
             && (forall k :: 0 <= k < |s.users| && s.users[k].id == user ==> !s.users[k].isAdmin)
             && i < |s.rows| && j < |s.rows|
             && user in s.rows[i].participants && user in s.rows[j].participants
    ensures i == j
  {
    RunKeepsValid(State(users, []), evs);
    var s := Run(State(users, []), evs);
    assert !IsAdmin(s.users, user);
  }

  /** No conversation of the user was touched later than `c`. */
  ghost predicate NoneNewer(rows: seq<Conversation>, user: UserId, c: Conversation) {
    forall d :: d in rows && user in d.participants ==> d.updatedAt <= c.updatedAt
  }

  lemma {:induction false} FirstAdminSome(users: seq<User>, deletedToo: bool)
    ensures FirstAdmin(users, deletedToo).Some? <==> exists i :: 0 <= i < |users| && users[i].isAdmin && (deletedToo || !users[i].isDeleted)
    ensures FirstAdmin(users, deletedToo).Some? ==>
              exists i :: 0 <= i < |users| && users[i].isAdmin && (deletedToo || !users[i].isDeleted)
                          && users[i].id == FirstAdmin(users, deletedToo).value
  {
    if users != [] {
      FirstAdminSome(users[1..], deletedToo);
      assert forall i :: 0 <= i < |users[1..]| ==> users[1..][i] == users[i + 1];
      if i :| 0 <= i < |users| && users[i].isAdmin && (deletedToo || !users[i].isDeleted) {
        assert i > 0 ==> users[1..][i - 1] == users[i];
      }
    }
  }

  /** Support is an admin who is not deleted as long as there is one, and is offline
      if and only if there is no admin at all. */
  lemma {:induction false} SupportIsActive(users: seq<User>)
    ensures GetSuperAdminUser(users).None? <==> forall i :: 0 <= i < |users| ==> !users[i].isAdmin
    ensures (exists i :: 0 <= i < |users| && users[i].isAdmin && !users[i].isDeleted) ==>
              exists i :: 0 <= i < |users| && users[i].isAdmin && !users[i].isDeleted && Some(users[i].id) == GetSuperAdminUser(users)
  {
    FirstAdminSome(users, false);
    FirstAdminSome(users, true);
  }

  /** A start by the shopper or an admin ends with the shopper in a conversation: one
      that was there, or one new one with an admin. It fails only without any admin,
      or for a target that is nobody. */
  lemma {:induction false} StartMeaning(users: seq<User>, rows: seq<Conversation>, user: UserId, target: Option<UserId>, now: int)
    ensures var r := Started(users, rows, user, target, now);
            && (IsAdmin(users, user) && target.None? ==> r == Ok(rows))
            && (IsAdmin(users, user) && target.Some? ==>
                  && (r.Err? <==> !IsUser(users, target.value))
                  && (r.Ok? ==> r.value == if exists c :: c in rows && target.value in c.participants then rows
                                           else rows + [Conversation(|rows|, [user, target.value], now)]))
            && (!IsAdmin(users, user) ==>
                  var support := GetSuperAdminUser(users);
                  && (r.Err? <==> support.None? && forall c :: c in rows ==> user !in c.participants)
                  && (r.Ok? ==> if exists c :: c in rows && user in c.participants then r.value == rows
                                else support.Some? && r.value == rows + [Conversation(|rows|, [user, support.value], now)]))
  {
    HavingMembers(rows, user);
    SomeHave(rows, user);
    if target.Some? {
      SomeHave(rows, target.value);
    }
    hide GetSuperAdminUser, Having, IsAdmin, IsUser;
  }

  lemma {:induction false} SomeHave(rows: seq<Conversation>, user: UserId)
    ensures Having(rows, user) != [] <==> exists c :: c in rows && user in c.participants
  {
    HavingMembers(rows, user);
    if Having(rows, user) != [] {
      assert Having(rows, user)[0] in Having(rows, user);
    }
  }

  class Conversations {
    var rows: seq<Conversation>

    constructor ()
      ensures rows == []
    {
      rows := [];
    }

    method StartUserSupportConversation(users: seq<User>, user: UserId, now: int)
      returns (r: Result<Conversation, ChatError>)
      modifies this
      ensures StartUserSupport(users, old(rows), user, now) == if r.Ok? then Ok(rows) else Err(r.error)
      ensures r.Err? ==> rows == old(rows)
      ensures r.Ok? ==> r.value in rows && user in r.value.participants && NoneNewer(rows, user, r.value)
    {
      var found := Having(rows, user);
      HavingMembers(rows, user);
      if found != [] {
        LatestIsOne(found);
        return Ok(Latest(found));
      }
      var superAdmin := GetSuperAdminUser(users);
      if superAdmin.None? {
        return Err(SupportOffline);
      }
      var created := Conversation(|rows|, [user, superAdmin.value], now);
      rows := rows + [created];
      assert created in rows;
      return Ok(created);
    }

    method StartAdminUserConversation(users: seq<User>, admin: UserId, target: UserId, now: int)
      returns (r: Result<Conversation, ChatError>)
      modifies this
      ensures StartAdminUser(users, old(rows), admin, target, now) == if r.Ok? then Ok(rows) else Err(r.error)
      ensures r.Err? ==> rows == old(rows)
      ensures r.Ok? ==> r.value in rows && target in r.value.participants && NoneNewer(rows, target, r.value)
    {
      if !IsUser(users, target) {
        return Err(UserNotFound);
      }
      var found := Having(rows, target);
      HavingMembers(rows, target);
      if found != [] {
        LatestIsOne(found);
        return Ok(Latest(found));
      }
      var created := Conversation(|rows|, [admin, target], now);
      rows := rows + [created];
      assert created in rows;
      return Ok(created);
    }
  }

  lemma {:induction false} LatestIsOne(rows: seq<Conversation>)
    requires rows != []
    ensures Latest(rows) in rows && forall c :: c in rows ==> c.updatedAt <= Latest(rows).updatedAt
  {
    assert rows == [rows[0]] + rows[1..];
    if |rows| > 1 {
      LatestIsOne(rows[1..]);
    }
  }

  // ----- The conversation list -------------------------------------------------------

  datatype Participant = Participant(id: UserId, isAdmin: bool)

  datatype Formatted = Formatted(id: nat, partner: Participant)

  const DEFAULT_PARTNER := Participant("", true)

  function FirstOther(participants: seq<UserId>, current: UserId): Option<UserId> {
    if participants == [] then None
    else if participants[0] != current then Some(participants[0])
    else FirstOther(participants[1..], current)
  }

  /** The partner: the first other participant, else the first one, else a stand-in. */
  function Format(users: seq<User>, c: Conversation, current: UserId): Formatted {
    var other := FirstOther(c.participants, current);
    Formatted(c.id,
              if other.Some? then Participant(other.value, IsAdmin(users, other.value))
              else if c.participants != [] then Participant(c.participants[0], IsAdmin(users, c.participants[0]))
              else DEFAULT_PARTNER)
  }

  function FormatAll(users: seq<User>, found: seq<Conversation>, current: UserId): seq<Formatted> {
    seq(|found|, i requires 0 <= i < |found| => Format(users, found[i], current))
  }

  /** Admins are not shown to an admin. */
  predicate Shown(row: Formatted, asAdmin: bool) {
    !(asAdmin && row.partner.isAdmin)
  }

  /** Row i is shown and no shown row before it has its partner. */
  predicate Kept(rows: seq<Formatted>, asAdmin: bool, i: nat)
    requires i < |rows|
  {
    && Shown(rows[i], asAdmin)
    && (rows[i].partner.id == ""
        || forall j :: 0 <= j < i && Shown(rows[j], asAdmin) ==> rows[j].partner.id != rows[i].partner.id)
  }

  function KeptUpTo(rows: seq<Formatted>, asAdmin: bool, n: nat): seq<Formatted>
    requires n <= |rows|
  {
    if n == 0 then [] else KeptUpTo(rows, asAdmin, n - 1) + (if Kept(rows, asAdmin, n - 1) then [rows[n - 1]] else [])
  }

  /** `found` is what the database returned for this user. */
  method GetConversations(users: seq<User>, found: seq<Conversation>, user: UserId) returns (unique: seq<Formatted>)
    ensures var rows := FormatAll(users, found, user);
            unique == KeptUpTo(rows, IsAdmin(users, user), |rows|)
  {
    var formatted := FormatAll(users, found, user);
    var asAdmin := IsAdmin(users, user);
    var seenPartnerIds: set<UserId> := {};
    unique := [];
    for i := 0 to |formatted|
      invariant unique == KeptUpTo(formatted, asAdmin, i)
      invariant forall p :: p in seenPartnerIds <==>
                  p != "" && exists j :: 0 <= j < i && Shown(formatted[j], asAdmin) && formatted[j].partner.id == p
    {
      var conv := formatted[i];
      if asAdmin && conv.partner.isAdmin {
        continue;
      }
      var partnerId := conv.partner.id;
      if partnerId != "" && partnerId !in seenPartnerIds {
        seenPartnerIds := seenPartnerIds + {partnerId};
        unique := unique + [conv];
      } else if partnerId == "" {
        unique := unique + [conv];
      }
    }
  }

  lemma {:induction false} KeptComeFromRows(rows: seq<Formatted>, asAdmin: bool, n: nat, r: Formatted)
    requires n <= |rows| && r in KeptUpTo(rows, asAdmin, n)
    ensures exists k :: 0 <= k < n && rows[k] == r && Kept(rows, asAdmin, k)
  {
    if r in KeptUpTo(rows, asAdmin, n - 1) {
      KeptComeFromRows(rows, asAdmin, n - 1, r);
    }
  }

  predicate PartnersOnce(rows: seq<Formatted>) {
    forall i, j :: 0 <= i < j < |rows| ==> rows[i].partner.id != rows[j].partner.id || rows[i].partner.id == ""
  }

  /** No partner is kept twice. */
  lemma {:induction false} KeptOncePerPartner(rows: seq<Formatted>, asAdmin: bool, n: nat)
    requires n <= |rows|
    ensures PartnersOnce(KeptUpTo(rows, asAdmin, n))
  {
    if n > 0 {
      KeptOncePerPartner(rows, asAdmin, n - 1);
      var before, kept := KeptUpTo(rows, asAdmin, n - 1), KeptUpTo(rows, asAdmin, n);
      forall i, j | 0 <= i < j < |kept| && kept[i].partner.id == kept[j].partner.id ensures kept[i].partner.id == "" {
        assert kept[i] == before[i];
        if j < |before| {
          assert kept[j] == before[j];
        } else {
          assert Kept(rows, asAdmin, n - 1) && kept[j] == rows[n - 1];
          KeptComeFromRows(rows, asAdmin, n - 1, before[i]);
          var k :| 0 <= k < n - 1 && rows[k] == before[i] && Kept(rows, asAdmin, k);
          assert Shown(rows[k], asAdmin);
        }
      }
    }
  }

  /** No shown partner is lost: the first row with that partner is kept. */
  lemma {:induction false} NoPartnerLost(rows: seq<Formatted>, asAdmin: bool, n: nat, k: nat)
    requires k < n <= |rows| && (!asAdmin || !rows[k].partner.isAdmin)
    ensures exists r :: r in KeptUpTo(rows, asAdmin, n) && r.partner.id == rows[k].partner.id
    decreases n, k
  {
    var kept := KeptUpTo(rows, asAdmin, n);
    if k < n - 1 {
      NoPartnerLost(rows, asAdmin, n - 1, k);
      var r :| r in KeptUpTo(rows, asAdmin, n - 1) && r.partner.id == rows[k].partner.id;
      assert r in kept;
    } else if Kept(rows, asAdmin, k) {
      assert kept[|kept| - 1] == rows[k];
    } else {
      var j :| 0 <= j < k && Shown(rows[j], asAdmin) && rows[j].partner.id == rows[k].partner.id;
      NoPartnerLost(rows, asAdmin, n, j);
    }
  }

  function ShownRows(rows: seq<Formatted>, asAdmin: bool): seq<Formatted> {
    if rows == [] then []
    else ShownRows(rows[..|rows| - 1], asAdmin)
         + (if Shown(rows[|rows| - 1], asAdmin) then [rows[|rows| - 1]] else [])
  }

  lemma {:induction false} ShownRowsMeaning(rows: seq<Formatted>, asAdmin: bool)
    ensures forall r :: r in ShownRows(rows, asAdmin) <==> r in rows && (!asAdmin || !r.partner.isAdmin)
  {
    if rows != [] {
      ShownRowsMeaning(rows[..|rows| - 1], asAdmin);
      assert rows == rows[..|rows| - 1] + [rows[|rows| - 1]];
    }
  }

  lemma {:induction false} NothingElseDropped(rows: seq<Formatted>, asAdmin: bool, n: nat)
    requires n <= |rows|
    requires forall i, j :: 0 <= i < j < |rows| && Shown(rows[i], asAdmin) && Shown(rows[j], asAdmin)
                            ==> rows[i].partner.id != rows[j].partner.id
    ensures KeptUpTo(rows, asAdmin, n) == ShownRows(rows[..n], asAdmin)
  {
    if n > 0 {
      NothingElseDropped(rows, asAdmin, n - 1);
      assert rows[..n][..n - 1] == rows[..n - 1];
    }
  }

  lemma DistinctPlaces(found: seq<Conversation>, rows: seq<Conversation>, user: UserId, i: nat, j: nat)
    requires multiset(found) == multiset(Having(rows, user))
    requires forall k :: 0 <= k < |rows| ==> rows[k].id == k
    requires i < j < |found|
    ensures found[i] in rows && found[j] in rows && found[i].id != found[j].id
    ensures user in found[i].participants && user in found[j].participants
  {
    HavingMembers(rows, user);
    assert found[i] in multiset(found) && found[j] in multiset(found);
    if found[i] == found[j] {
      HavingOnce(rows, user, found[i]);
      CountedTwice(found, i, j);
      assert false;
    }
  }

  lemma CountedTwice(s: seq<Conversation>, i: nat, j: nat)
    requires i < j < |s| && s[i] == s[j]
    ensures multiset(s)[s[i]] >= 2
  {
    assert s == s[..j] + s[j..];
    assert s[..j][i] == s[i] && s[j..][0] == s[i];
    assert multiset(s) == multiset(s[..j]) + multiset(s[j..]);
  }

  lemma {:induction false} HavingOnce(rows: seq<Conversation>, user: UserId, c: Conversation)
    requires forall i, j :: 0 <= i < j < |rows| ==> rows[i].id != rows[j].id
    ensures multiset(Having(rows, user))[c] <= 1
  {
    if rows != [] {
      HavingOnce(rows[1..], user, c);
      HavingMembers(rows[1..], user);
      if c == rows[0] {
        forall k | 0 <= k < |rows[1..]| ensures rows[1..][k] != c {
          assert rows[1..][k] == rows[k + 1];
        }
        assert c !in Having(rows[1..], user);
      }
    }
  }

  /** In every reachable state the list drops no row but those whose partner is
      an admin (shown to an admin), so nobody's conversation goes missing. */
  lemma ListDropsOnlyAdmins(start: seq<User>, evs: seq<Event>, user: UserId, found: seq<Conversation>)
    requires multiset(found) == multiset(Having(Run(State(start, []), evs).rows, user))
    ensures var users := Run(State(start, []), evs).users;
            var rows := FormatAll(users, found, user);
            var kept := KeptUpTo(rows, IsAdmin(users, user), |rows|);
            && kept == ShownRows(rows, IsAdmin(users, user))
            && forall i :: 0 <= i < |rows| ==> (rows[i] in kept <==> !IsAdmin(users, user) || !rows[i].partner.isAdmin)
  {
    RunKeepsValid(State(start, []), evs);
    var users, all := Run(State(start, []), evs).users, Run(State(start, []), evs).rows;
    var rows, asAdmin := FormatAll(users, found, user), IsAdmin(users, user);
    forall i, j | 0 <= i < j < |rows| && Shown(rows[i], asAdmin) && Shown(rows[j], asAdmin)
      ensures rows[i].partner.id != rows[j].partner.id
    {
      DistinctPlaces(found, all, user, i, j);
      PartnerTakesPart(users, found[i], user);
      PartnerTakesPart(users, found[j], user);
      assert all[found[i].id] == found[i] && all[found[j].id] == found[j];
    }
    NothingElseDropped(rows, asAdmin, |rows|);
    assert rows[..|rows|] == rows;
    ShownRowsMeaning(rows, asAdmin);
    assert forall i :: 0 <= i < |rows| ==> rows[i] in rows;
  }

  /** The partner shown is the other one of two, whoever looks; only somebody alone in
      a conversation is shown to himself. */
  lemma {:induction false} PartnerIsOther(users: seq<User>, c: Conversation, user: UserId)
    requires |c.participants| == 2
    ensures var shown := Format(users, c, user);
            && shown.id == c.id
            && (c.participants[0] != user ==> shown.partner.id == c.participants[0])
            && (c.participants[0] == user ==> shown.partner.id == c.participants[1])
            && (shown.partner.isAdmin <==> IsAdmin(users, shown.partner.id))
  {
    var rest := c.participants[1..];
    assert FirstOther(c.participants, user) == if c.participants[0] != user then Some(c.participants[0]) else FirstOther(rest, user);
    assert rest[0] == c.participants[1] && rest[1..] == [];
    assert FirstOther(rest, user) == if rest[0] != user then Some(rest[0]) else FirstOther(rest[1..], user);
    assert FirstOther([], user) == None;
  }

  lemma PartnerTakesPart(users: seq<User>, c: Conversation, user: UserId)
    requires |c.participants| == 2
    ensures Format(users, c, user).partner.id in c.participants
    ensures Format(users, c, user).partner.isAdmin <==> IsAdmin(users, Format(users, c, user).partner.id)
  {
    assert FirstOther(c.participants, user)
           == if c.participants[0] != user then Some(c.participants[0])
              else FirstOther(c.participants[1..], user);
    assert FirstOther(c.participants[1..], user)
           == if c.participants[1] != user then Some(c.participants[1]) else FirstOther(c.participants[1..][1..], user);
  }
}
