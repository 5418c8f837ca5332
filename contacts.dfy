/**
 * The friendship state machine. Contacts are directed rows keyed by
 * `(userId, contactId)`, unique on that pair, each with a status, an optional alias
 * and a soft-delete mark. A friendship is two rows, one per direction; a request is
 * a PENDING_SENT row on the sender's side and a PENDING_RECEIVED row on the
 * receiver's.
 */
module Contacts {
  import opened Wrappers
  import opened Strings
  import opened QueryBuilder

  datatype Status = PendingSent | PendingReceived | Friend | Blocked

  datatype Contact = Contact(status: Status, alias: Option<string>, deleted: bool)

  /** The contacts table: at most one row per `(userId, contactId)`, soft-deleted rows included. */
  type Table = map<(string, string), Contact>

  /** The failures the operations report, with the application's error codes. */
  datatype ContactError =
    | BadRequest(code: int)
    | Conflict(code: int)
    | NotFound(code: int)
    | UniqueViolation  // an insert on a pair a soft-deleted row still holds

  const UserNotFound := 2000
  const ContactNotFound := 5000
  const FriendRequestNotFound := 5001
  const AlreadyFriend := 5002
  const AlreadySent := 5003
  const UserBlocked := 5004
  const CannotAddYourself := 5005

  /** A row a query without `withDeleted` finds. */
  predicate Visible(t: Table, k: (string, string)) {
    k in t && !t[k].deleted
  }

  /** Find the row with deleted ones included: set the status and undelete it, or insert a fresh one. */
  function Revive(t: Table, k: (string, string), s: Status): (r: Table)
    ensures Visible(r, k) && r[k].status == s
    ensures r[k].alias == (if k in t then t[k].alias else None)
    ensures r.Keys == t.Keys + {k}
    ensures forall j :: j != k && j in t ==> r[j] == t[j]
  {
    if k in t then t[k := t[k].(status := s, deleted := false)] else t[k := Contact(s, None, false)]
  }

  /** `softDelete({ userId, contactId })`: marks the row if there is one. */
  function SoftDelete(t: Table, k: (string, string)): (r: Table)
    ensures r.Keys == t.Keys && (k in t ==> r[k] == t[k].(deleted := true))
    ensures forall j :: j != k && j in t ==> r[j] == t[j]
  {
    if k in t then t[k := t[k].(deleted := true)] else t
  }

  /** What an operation answers and the table it leaves. */
  datatype Outcome<R> = Outcome(result: Result<R, ContactError>, table: Table)

  /**
   * `acceptFriendRequest(me, sender)`: my visible PENDING_RECEIVED row becomes FRIEND
   * and loses its alias; the sender's visible row becomes FRIEND or, when there is
   * none, a FRIEND row is inserted. An insert on a pair whose row is soft-deleted
   * violates the unique key and the transaction rolls back.
   */
  function Accept(t: Table, me: string, sender: string): (o: Outcome<bool>)
    ensures o.result.Failure? ==> o.table == t
    ensures (!Visible(t, (me, sender)) || t[(me, sender)].status != PendingReceived)
      ==> o.result == Failure(NotFound(FriendRequestNotFound))
    ensures o.result.Success? ==>
      && Visible(o.table, (me, sender)) && o.table[(me, sender)].status == Friend
      && Visible(o.table, (sender, me)) && o.table[(sender, me)].status == Friend
      && (me != sender ==> o.table[(me, sender)].alias == None)
      && forall k :: k != (me, sender) && k != (sender, me) ==> (k in o.table <==> k in t) && (k in t ==> o.table[k] == t[k])
  {
    var mine := (me, sender);
    var theirs := (sender, me);
    if !(Visible(t, mine) && t[mine].status == PendingReceived) then Outcome(Failure(NotFound(FriendRequestNotFound)), t)
    else
      var t1 := t[mine := t[mine].(status := Friend, alias := None)];
      if Visible(t, theirs) then Outcome(Success(true), t1[theirs := t[theirs].(status := Friend)])
      else if theirs in t then Outcome(Failure(UniqueViolation), t)
      else Outcome(Success(true), t1[theirs := Contact(Friend, None, false)])
  }

  /**
   * `sendFriendRequest(me, target)`: refused for oneself and for an unknown target;
   * a visible row of mine decides (already friends, already sent, blocked, or the
   * target's own request, which is accepted); otherwise both directions are
   * revived or inserted as a pending pair.
   */
  function Send(t: Table, users: set<string>, me: string, target: string): (o: Outcome<bool>)
    ensures o.result.Failure? ==> o.table == t
    ensures me == target ==> o.result == Failure(BadRequest(CannotAddYourself))
    ensures forall k :: k != (me, target) && k != (target, me) ==> (k in o.table <==> k in t) && (k in t ==> o.table[k] == t[k])
  {
    var mine := (me, target);
    var theirs := (target, me);
    if me == target then Outcome(Failure(BadRequest(CannotAddYourself)), t)
    else if target !in users then Outcome(Failure(NotFound(UserNotFound)), t)
    else if Visible(t, mine) && t[mine].status == Friend then Outcome(Failure(Conflict(AlreadyFriend)), t)
    else if Visible(t, mine) && t[mine].status == PendingSent then Outcome(Failure(Conflict(AlreadySent)), t)
    else if Visible(t, mine) && t[mine].status == Blocked then Outcome(Failure(BadRequest(UserBlocked)), t)
    else if Visible(t, mine) then Accept(t, me, target)
    else Outcome(Success(true), Revive(Revive(t, mine, PendingSent), theirs, PendingReceived))
  }

  /**
   * The ways a request to someone else ends: the guards in order, the hand-over to
   * accepting, and otherwise a pending pair that reuses the rows already there
   * (keeping their aliases) instead of adding rows next to them.
   */
  lemma SendCases(t: Table, users: set<string>, me: string, target: string)
    requires me != target
    ensures var o := Send(t, users, me, target);
      && (target !in users ==> o.result == Failure(NotFound(UserNotFound)))
      && (target in users && Visible(t, (me, target)) ==>
            match t[(me, target)].status
            case Friend => o.result == Failure(Conflict(AlreadyFriend))
            case PendingSent => o.result == Failure(Conflict(AlreadySent))
            case Blocked => o.result == Failure(BadRequest(UserBlocked))
            case PendingReceived => o == Accept(t, me, target))
      && (target in users && !Visible(t, (me, target)) ==>
            && o.result == Success(true)
            && o.table.Keys == t.Keys + {(me, target), (target, me)}
            && Visible(o.table, (me, target)) && o.table[(me, target)].status == PendingSent
            && Visible(o.table, (target, me)) && o.table[(target, me)].status == PendingReceived
            && o.table[(me, target)].alias == (if (me, target) in t then t[(me, target)].alias else None)
            && o.table[(target, me)].alias == (if (target, me) in t then t[(target, me)].alias else None))
  {
  }

  /** `removeContact(me, target)`: both directions are soft-deleted, whatever their status. */
  function Remove(t: Table, me: string, target: string): (o: Outcome<bool>)
    ensures o.result == Success(true) && o.table.Keys == t.Keys
    ensures !Visible(o.table, (me, target)) && !Visible(o.table, (target, me))
    ensures forall k :: k in t && k != (me, target) && k != (target, me) ==> o.table[k] == t[k]
    ensures forall k :: k in t && (k == (me, target) || k == (target, me)) ==>
              o.table[k].status == t[k].status && o.table[k].alias == t[k].alias
  {
    Outcome(Success(true), SoftDelete(SoftDelete(t, (me, target)), (target, me)))
  }

  /** `updateAlias(me, target, alias)`: only my visible row, and only its alias, changes. */
  function UpdateAlias(t: Table, me: string, target: string, alias: Option<string>): (o: Outcome<Contact>)
    ensures !Visible(t, (me, target)) ==> o.result == Failure(NotFound(ContactNotFound)) && o.table == t
    ensures Visible(t, (me, target)) ==>
      && o.result == Success(t[(me, target)].(alias := alias))
      && o.table == t[(me, target) := t[(me, target)].(alias := alias)]
  {
    if !Visible(t, (me, target)) then Outcome(Failure(NotFound(ContactNotFound)), t)
    else
      var c := t[(me, target)].(alias := alias);
      Outcome(Success(c), t[(me, target) := c])
  }

  // ---------------------------------------------------------------- the pairing invariant

  /** The statuses the two directions of one relationship carry. */
  predicate Mirror(s: Status, r: Status) {
    (s == PendingSent && r == PendingReceived) || (s == PendingReceived && r == PendingSent) || (s == Friend && r == Friend)
  }

  function Flip(k: (string, string)): (string, string) {
    (k.1, k.0)
  }

  /** Every visible row has a visible row in the other direction with the mirrored status. */
  ghost predicate Paired(t: Table) {
    forall k :: k in t && !t[k].deleted ==> Visible(t, Flip(k)) && Mirror(t[k].status, t[Flip(k)].status)
  }

  /** Accepting keeps the table paired, and on a paired table it never runs into the unique key. */
  lemma AcceptKeepsPaired(t: Table, me: string, sender: string)
    requires Paired(t)
    ensures Paired(Accept(t, me, sender).table)
    ensures Accept(t, me, sender).result != Failure(UniqueViolation)
  {
    var o := Accept(t, me, sender);
    if o.result.Success? {
      assert Visible(t, Flip((me, sender)));
      forall k | k in o.table && !o.table[k].deleted
        ensures Visible(o.table, Flip(k)) && Mirror(o.table[k].status, o.table[Flip(k)].status)
      {
        if k != (me, sender) && k != (sender, me) {
          assert Visible(t, Flip(k));
        }
      }
    }
  }

  /** Sending keeps the table paired. */
  lemma SendKeepsPaired(t: Table, users: set<string>, me: string, target: string)
    requires Paired(t)
    ensures Paired(Send(t, users, me, target).table)
  {
    var o := Send(t, users, me, target);
    if me != target && target in users {
      if Visible(t, (me, target)) {
        AcceptKeepsPaired(t, me, target);
      } else {
        assert Flip((target, me)) == (me, target);
        forall k | k in o.table && !o.table[k].deleted
          ensures Visible(o.table, Flip(k)) && Mirror(o.table[k].status, o.table[Flip(k)].status)
        {
          if k != (me, target) && k != (target, me) {
            assert Visible(t, k) && Visible(t, Flip(k));
          }
        }
      }
    }
  }

  /** Removing keeps the table paired. */
  lemma RemoveKeepsPaired(t: Table, me: string, target: string)
    requires Paired(t)
    ensures Paired(Remove(t, me, target).table)
  {
    var o := Remove(t, me, target);
    forall k | k in o.table && !o.table[k].deleted
      ensures Visible(o.table, Flip(k)) && Mirror(o.table[k].status, o.table[Flip(k)].status)
    {
      assert Visible(t, k) && Visible(t, Flip(k));
    }
  }

  /** Changing an alias keeps the table paired. */
  lemma UpdateAliasKeepsPaired(t: Table, me: string, target: string, alias: Option<string>)
    requires Paired(t)
    ensures Paired(UpdateAlias(t, me, target, alias).table)
  {
    var o := UpdateAlias(t, me, target, alias);
    forall k | k in o.table && !o.table[k].deleted
      ensures Visible(o.table, Flip(k)) && Mirror(o.table[k].status, o.table[Flip(k)].status)
    {
      assert Visible(t, k) && Visible(t, Flip(k));
    }
  }

  /** On a paired table a request and its acceptance make a friendship in both directions. */
  lemma SendThenAccept(t: Table, users: set<string>, me: string, target: string)
    requires Paired(t) && me != target && target in users && !Visible(t, (me, target))
    ensures var o := Accept(Send(t, users, me, target).table, target, me);
      && o.result == Success(true)
      && o.table[(me, target)].status == Friend && o.table[(target, me)].status == Friend
      && Visible(o.table, (me, target)) && Visible(o.table, (target, me))
  {
    SendCases(t, users, me, target);
  }

  // ---------------------------------------------------------------- the contact list's sort

  /** The expression the contact list sorts names by: the alias if set, else the user's name. */
  const NameExpr := "COALESCE(c.alias, u.name)"

  /** The direction of a contact-list token: DESC only when it upper-cases to DESC. */
  function NameDirection(parts: seq<string>): (d: Direction)
    ensures d == Desc <==> |parts| >= 2 && ToUpper(parts[1]) == "DESC"
  {
    if |parts| >= 2 && ToUpper(parts[1]) == "DESC" then Desc else Asc
  }

  /** The query after the name tokens, in order, and the tokens left for pagination. */
  function NameOrders(q: Query, tokens: seq<string>): Query {
    if |tokens| == 0 then q
    else
      var q1 := NameOrders(q, tokens[..|tokens| - 1]);
      var parts := Split(tokens[|tokens| - 1], ':');
      if parts[0] == "name" then AddOrder(q1, NameExpr, NameDirection(parts)) else q1
  }

  function OtherTokens(tokens: seq<string>): (rest: seq<string>)
    ensures |rest| <= |tokens| && forall i :: 0 <= i < |rest| ==> rest[i] in tokens
  {
    if |tokens| == 0 then []
    else
      var init := OtherTokens(tokens[..|tokens| - 1]);
      if Split(tokens[|tokens| - 1], ':')[0] == "name" then init else init + [tokens[|tokens| - 1]]
  }

  /**
   * The sort rewrite of the contact list: `name` tokens become orders on the alias
   * or name, the other tokens are handed on joined by ',', and with no sort the
   * list is ordered by name ascending and nothing is handed on.
   */
  method RewriteSort(q: Query, sort: Option<string>) returns (r: Query, rest: Option<string>)
    ensures sort.None? || sort.value == "" ==> r == AddOrder(q, NameExpr, Asc) && rest == sort
    ensures sort.Some? && sort.value != "" ==>
      var tokens := Split(sort.value, ',');
      && r == NameOrders(q, tokens)
      && rest == (if |OtherTokens(tokens)| > 0 then Some(Join(OtherTokens(tokens), ",")) else None)
  {
    if sort.None? || sort.value == "" {
      r := AddOrder(q, NameExpr, Asc);
      rest := sort;
      return;
    }
    var sortParts := Split(sort.value, ',');
    var remainingSorts: seq<string> := [];
    r := q;
    for i := 0 to |sortParts|
      invariant r == NameOrders(q, sortParts[..i]) && remainingSorts == OtherTokens(sortParts[..i])
    {
      assert sortParts[..i + 1][..i] == sortParts[..i];
      var parts := Split(sortParts[i], ':');
      var field := parts[0];
      var direction := if |parts| >= 2 && ToUpper(parts[1]) == "DESC" then Desc else Asc;
      if field == "name" {
        r := AddOrder(r, NameExpr, direction);
      } else {
        remainingSorts := remainingSorts + [sortParts[i]];
      }
    }
    assert sortParts[..|sortParts|] == sortParts;
    rest := if |remainingSorts| > 0 then Some(Join(remainingSorts, ",")) else None;
  }

  /**
   * The name tokens only touch the ORDER BY list, and the string handed on splits
   * back into exactly the other tokens, in their order.
   */
  lemma {:induction false} RewriteSortParts(q: Query, tokens: seq<string>)
    requires forall i :: 0 <= i < |tokens| ==> ',' !in tokens[i]
    ensures NameOrders(q, tokens) == q.(orderBys := NameOrders(q, tokens).orderBys)
    ensures |OtherTokens(tokens)| > 0 ==> Split(Join(OtherTokens(tokens), ","), ',') == OtherTokens(tokens)
    ensures forall i :: 0 <= i < |OtherTokens(tokens)| ==> Split(OtherTokens(tokens)[i], ':')[0] != "name"
  {
    if |tokens| > 0 {
      RewriteSortParts(q, tokens[..|tokens| - 1]);
    }
    var rest := OtherTokens(tokens);
    if |rest| > 0 {
      forall i | 0 <= i < |rest| ensures ',' !in rest[i] {
        assert rest[i] in tokens;
      }
      SplitJoin(rest, ',');
    }
  }

  // ---------------------------------------------------------------- the service

  /**
   * The service over the contacts table and the set of existing users. Each
   * transaction stages its writes and commits them together at the end; a failure
   * inside it commits nothing.
   */
  class ContactsService {
    var contacts: Table
    var users: set<string>

    constructor (contacts: Table, users: set<string>)
      ensures this.contacts == contacts && this.users == users
    {
      this.contacts := contacts;
      this.users := users;
    }

    method AcceptFriendRequest(me: string, sender: string) returns (r: Result<bool, ContactError>)
      modifies this
      ensures Outcome(r, contacts) == Accept(old(contacts), me, sender) && users == old(users)
    {
      var mine := (me, sender);
      if !(mine in contacts && !contacts[mine].deleted && contacts[mine].status == PendingReceived) {
        return Failure(NotFound(FriendRequestNotFound));
      }
      var request := contacts[mine].(status := Friend, alias := None);
      var staged := contacts[mine := request];
      var theirs := (sender, me);
      if theirs in contacts && !contacts[theirs].deleted {
        var senderRecord := contacts[theirs].(status := Friend);
        staged := staged[theirs := senderRecord];
      } else if theirs in contacts {
        return Failure(UniqueViolation);
      } else {
        staged := staged[theirs := Contact(Friend, None, false)];
      }
      contacts := staged;
      r := Success(true);
    }

    method SendFriendRequest(me: string, target: string) returns (r: Result<bool, ContactError>)
      modifies this
      ensures Outcome(r, contacts) == Send(old(contacts), old(users), me, target) && users == old(users)
    {
      if me == target {
        return Failure(BadRequest(CannotAddYourself));
      }
      if target !in users {
        return Failure(NotFound(UserNotFound));
      }
      var mine := (me, target);
      if mine in contacts && !contacts[mine].deleted {
        var existing := contacts[mine];
        match existing.status {
          case Friend => return Failure(Conflict(AlreadyFriend));
          case PendingSent => return Failure(Conflict(AlreadySent));
          case Blocked => return Failure(BadRequest(UserBlocked));
          case PendingReceived =>
            r := AcceptFriendRequest(me, target);
            return;
        }
      }
      var staged := contacts;
      if mine in staged {
        staged := staged[mine := staged[mine].(status := PendingSent, deleted := false)];
      } else {
        staged := staged[mine := Contact(PendingSent, None, false)];
      }
      var theirs := (target, me);
      if theirs in staged {
        staged := staged[theirs := staged[theirs].(status := PendingReceived, deleted := false)];
      } else {
        staged := staged[theirs := Contact(PendingReceived, None, false)];
      }
      contacts := staged;
      r := Success(true);
    }

    method RemoveContact(me: string, target: string) returns (r: Result<bool, ContactError>)
      modifies this
      ensures Outcome(r, contacts) == Remove(old(contacts), me, target) && users == old(users)
    {
      contacts := SoftDelete(contacts, (me, target));
      contacts := SoftDelete(contacts, (target, me));
      r := Success(true);
    }

    method UpdateContactAlias(me: string, target: string, alias: Option<string>) returns (r: Result<Contact, ContactError>)
      modifies this
      ensures Outcome(r, contacts) == UpdateAlias(old(contacts), me, target, alias) && users == old(users)
    {
      var key := (me, target);
      if !(key in contacts && !contacts[key].deleted) {
        return Failure(NotFound(ContactNotFound));
      }
      var contact := contacts[key].(alias := alias);
      contacts := contacts[key := contact];
      r := Success(contact);
    }
  }
}
