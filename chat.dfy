/**
 * Conversations, their participants and their messages. Ids of new rows are the
 * positions they are appended at, and the current time is a parameter of every
 * operation that stamps a row.
 */
module Chat {
  import opened Wrappers
  import opened Strings
  import opened Collections
  import opened QueryBuilder
  import QH = QueryHelper

  datatype ConversationType = Direct | Group

  datatype MessageType = Text | Image | File | System

  function TypeName(t: MessageType): string {
    match t
    case Text => "TEXT"
    case Image => "IMAGE"
    case File => "FILE"
    case System => "SYSTEM"
  }

  datatype Conversation = Conversation(
    kind: ConversationType,
    name: Option<string>,
    lastMessage: Option<string>,
    lastMessageSenderId: Option<string>,
    lastMessageAt: int,
    lastMessageType: Option<MessageType>)

  datatype Participant = Participant(conversationId: nat, userId: string, isAdmin: bool, lastReadAt: Option<int>, joinedAt: int)

  datatype Message = Message(id: nat, conversationId: nat, senderId: string, content: string, kind: MessageType, createdAt: int)

  /** `ForeignKey` is the database refusing a participant row whose user does not exist. */
  datatype ChatError = Forbidden | BadRequest | NotFound(code: int) | ForeignKey

  const UserNotFound := 2000

  /** The preview a conversation shows: the text of a text message, `[TYPE]` for any other. */
  function Preview(kind: MessageType, content: string): (p: string)
    ensures kind == Text ==> p == content
    ensures kind != Text ==> |p| >= 2 && p[0] == '[' && p[|p| - 1] == ']' && p[1..|p| - 1] == TypeName(kind)
  {
    if kind == Text then content else "[" + TypeName(kind) + "]"
  }

  /** Whether a user takes part in a conversation: a participant row for the pair exists. */
  predicate IsParticipant(ps: seq<Participant>, conversationId: nat, userId: string) {
    exists i :: 0 <= i < |ps| && ps[i].conversationId == conversationId && ps[i].userId == userId
  }

  /** The user ids of a conversation's participant rows, in row order. */
  function Recipients(ps: seq<Participant>, conversationId: nat): (us: seq<string>)
    ensures forall u :: u in us <==> IsParticipant(ps, conversationId, u)
  {
    if |ps| == 0 then []
    else
      var init := Recipients(ps[..|ps| - 1], conversationId);
      var p := ps[|ps| - 1];
      assert forall u :: IsParticipant(ps, conversationId, u) <==>
        IsParticipant(ps[..|ps| - 1], conversationId, u) || (p.conversationId == conversationId && p.userId == u) by {
        forall u ensures IsParticipant(ps, conversationId, u) ==>
          IsParticipant(ps[..|ps| - 1], conversationId, u) || (p.conversationId == conversationId && p.userId == u)
        {
          if IsParticipant(ps, conversationId, u) {
            var i :| 0 <= i < |ps| && ps[i].conversationId == conversationId && ps[i].userId == u;
            if i < |ps| - 1 {
              assert ps[..|ps| - 1][i] == ps[i];
            }
          }
        }
        forall u | IsParticipant(ps[..|ps| - 1], conversationId, u) ensures IsParticipant(ps, conversationId, u) {
          var i :| 0 <= i < |ps| - 1 && ps[..|ps| - 1][i].conversationId == conversationId && ps[..|ps| - 1][i].userId == u;
          assert ps[i] == ps[..|ps| - 1][i];
        }
      }
      init + (if p.conversationId == conversationId then [p.userId] else [])
  }

  /** The sender's participant row stamped as read at `at`; every other row as it was. */
  function MarkRead(ps: seq<Participant>, conversationId: nat, userId: string, at: int): (r: seq<Participant>)
    ensures |r| == |ps|
    ensures forall i :: 0 <= i < |ps| ==>
      r[i] == (if ps[i].conversationId == conversationId && ps[i].userId == userId then ps[i].(lastReadAt := Some(at)) else ps[i])
  {
    seq(|ps|, i requires 0 <= i < |ps| =>
      if ps[i].conversationId == conversationId && ps[i].userId == userId then ps[i].(lastReadAt := Some(at)) else ps[i])
  }

  /** The conversation's last-message fields after a message; a conversation id with no row changes nothing. */
  function Touch(cs: seq<Conversation>, conversationId: nat, senderId: string, kind: MessageType, content: string, at: int)
    : (r: seq<Conversation>)
    ensures |r| == |cs|
    ensures conversationId < |cs| ==> r == cs[conversationId := cs[conversationId].(lastMessage := Some(Preview(kind, content)),
      lastMessageSenderId := Some(senderId), lastMessageAt := at, lastMessageType := Some(kind))]
    ensures conversationId >= |cs| ==> r == cs
  {
    if conversationId < |cs| then
      cs[conversationId := cs[conversationId].(lastMessage := Some(Preview(kind, content)),
        lastMessageSenderId := Some(senderId), lastMessageAt := at, lastMessageType := Some(kind))]
    else cs
  }

  /** The participant rows of a new group: the creator and the members, each once, only the creator an admin. */
  function GroupParticipants(conversationId: nat, creatorId: string, memberIds: seq<string>, at: int): (ps: seq<Participant>)
  {
    var uniqueIds := Dedup([creatorId] + memberIds);
    seq(|uniqueIds|, i requires 0 <= i < |uniqueIds| =>
      Participant(conversationId, uniqueIds[i], uniqueIds[i] == creatorId, None, at))
  }

  /** The creator and every member name an existing user. */
  predicate MembersExist(users: set<string>, creatorId: string, memberIds: seq<string>) {
    creatorId in users && forall k :: 0 <= k < |memberIds| ==> memberIds[k] in users
  }

  /**
   * Every participant row of a new group satisfies the foreign key to `users`
   * exactly when the creator and every member exist.
   */
  lemma GroupRowsExist(users: set<string>, conversationId: nat, creatorId: string, memberIds: seq<string>, at: int)
    ensures var ps := GroupParticipants(conversationId, creatorId, memberIds, at);
      MembersExist(users, creatorId, memberIds) <==> forall i :: 0 <= i < |ps| ==> ps[i].userId in users
  {
    var all := [creatorId] + memberIds;
    DedupFacts(all);
    var uniqueIds := Dedup(all);
    var ps := GroupParticipants(conversationId, creatorId, memberIds, at);
    if MembersExist(users, creatorId, memberIds) {
      forall i | 0 <= i < |ps| ensures ps[i].userId in users {
        assert uniqueIds[i] in uniqueIds;
        var k :| 0 <= k < |all| && all[k] == uniqueIds[i];
        if k > 0 { assert all[k] == memberIds[k - 1]; }
      }
    }
    if forall i :: 0 <= i < |ps| ==> ps[i].userId in users {
      forall k | 0 <= k < |all| ensures all[k] in users {
        assert all[k] in all;
        var i :| 0 <= i < |uniqueIds| && uniqueIds[i] == all[k];
        assert ps[i].userId == all[k];
      }
      forall k | 0 <= k < |memberIds| ensures memberIds[k] in users {
        assert memberIds[k] == all[k + 1];
      }
      assert creatorId == all[0];
    }
  }

  /**
   * A new group holds the creator and every member exactly once, the creator
   * first, and the creator is its only admin.
   */
  lemma GroupMembersOnce(conversationId: nat, creatorId: string, memberIds: seq<string>, at: int)
    ensures var ps := GroupParticipants(conversationId, creatorId, memberIds, at);
      && |ps| > 0 && ps[0].userId == creatorId && ps[0].isAdmin
      && (forall i :: 0 <= i < |ps| ==> ps[i].conversationId == conversationId && (ps[i].isAdmin <==> i == 0))
      && (forall i, j :: 0 <= i < j < |ps| ==> ps[i].userId != ps[j].userId)
      && (forall u :: IsParticipant(ps, conversationId, u) <==> u == creatorId || u in memberIds)
  {
    var all := [creatorId] + memberIds;
    DedupFacts(all);
    var uniqueIds := Dedup(all);
    var ps := GroupParticipants(conversationId, creatorId, memberIds, at);
    forall u ensures IsParticipant(ps, conversationId, u) <==> u in uniqueIds {
      if u in uniqueIds {
        var i :| 0 <= i < |uniqueIds| && uniqueIds[i] == u;
        assert ps[i].userId == u;
      }
    }
  }

  /** The first direct conversation in which both users take part. */
  function FindDirect(cs: seq<Conversation>, ps: seq<Participant>, a: string, b: string, from: nat): (r: Option<nat>)
    decreases |cs| - from
    ensures r.Some? ==> from <= r.value < |cs| && cs[r.value].kind == Direct
                        && IsParticipant(ps, r.value, a) && IsParticipant(ps, r.value, b)
    ensures r.None? ==> forall i :: from <= i < |cs| ==> !(cs[i].kind == Direct && IsParticipant(ps, i, a) && IsParticipant(ps, i, b))
  {
    if from >= |cs| then None
    else if cs[from].kind == Direct && IsParticipant(ps, from, a) && IsParticipant(ps, from, b) then Some(from)
    else FindDirect(cs, ps, a, b, from + 1)
  }

  /** `getUserInbox`'s sort: the caller's, or the latest conversation first. */
  function InboxSort(sort: Option<string>): Option<string> {
    if sort.None? || sort.value == "" then Some(InboxDefault) else sort
  }

  const InboxDefault := "lastMessageAt" + ":" + "DESC"

  lemma InboxDefaultSplit()
    ensures Split(InboxDefault, ',') == [InboxDefault]
  {
    SplitNoSeparator(InboxDefault, ',');
  }

  lemma InboxDefaultToken(alias: string)
    ensures QH.SortToken(alias, InboxDefault) == Some(OrderBy(Qualify(alias, "lastMessageAt"), Desc))
  {
    QH.SortTokenDirection(alias, "lastMessageAt", "DESC");
    assert |ToUpper("DESC")| == 4;
  }

  /** With no sort the inbox is ordered by last activity, newest first, instead of by creation time. */
  lemma InboxDefaultOrder(q: Query, sort: Option<string>)
    requires q.orderBys == []
    ensures sort.Some? && sort.value != "" ==> InboxSort(sort) == sort
    ensures sort.None? || sort.value == "" ==>
      QH.Sorted(q, InboxSort(sort)).orderBys == [OrderBy(Qualify(q.alias, "lastMessageAt"), Desc)]
  {
    if sort.None? || sort.value == "" {
      InboxDefaultSplit();
      InboxDefaultToken(q.alias);
      assert [InboxDefault][..0] == [];
      assert QH.ApplySortTokens(q, [InboxDefault]) == QH.ApplySortToken(q, InboxDefault);
      assert QH.Sorted(q, InboxSort(sort)) == QH.ApplySortToken(q, InboxDefault);
    }
  }

  /** The page of messages a member may read: the conversation's messages, paginated. */
  function MessagesQuery(conversationId: nat): Query {
    QH.FilterEntries(FromEntity("messages", "m"), [("conversationId", Num(conversationId))])
  }

  /**
   * The messages query reads the `messages` table under `m` with one condition,
   * `m.conversationId` equal to a parameter bound to the conversation's id, and no
   * ORDER BY of its own.
   */
  lemma MessagesQueryShape(conversationId: nat)
    ensures var q := MessagesQuery(conversationId);
      && q.alias == "m" && q.entity == Some("messages") && q.orderBys == []
      && |q.wheres| == 1 && q.wheres[0].Compare?
      && q.wheres[0].col == "m.conversationId" && q.wheres[0].op == Eq
      && q.wheres[0].param in q.params && q.params[q.wheres[0].param] == Num(conversationId)
  {
    var q0 := FromEntity("messages", "m");
    OneEntry(q0, "conversationId", Num(conversationId));
    var q := MessagesQuery(conversationId);
    assert q.wheres[0] == Compare(Qualify("m", "conversationId"), Eq, QH.EqParam("conversationId", 0));
    MessagesColumn();
  }

  lemma MessagesColumn()
    ensures Qualify("m", "conversationId") == "m.conversationId"
  {
    assert '.' !in "conversationId";
  }

  /** A single kept entry adds its own equality and binding to the query. */
  lemma OneEntry(q: Query, key: string, v: Value)
    requires QH.Kept(v)
    ensures var r := QH.FilterEntries(q, [(key, v)]); var p := QH.EqParam(key, q.serial);
      && r.alias == q.alias && r.entity == q.entity && r.orderBys == q.orderBys
      && r.wheres == q.wheres + [Compare(Qualify(q.alias, key), Eq, p)]
      && p in r.params && r.params[p] == v
  {
    assert [(key, v)][..0] == [];
  }

  /**
   * The chat service over its four tables: conversations (a conversation's id
   * is its index), participants, messages and the ids of existing users.
   */
  class ChatService {
    var conversations: seq<Conversation>
    var participants: seq<Participant>
    var messages: seq<Message>
    var users: set<string>

    constructor (users: set<string>)
      ensures conversations == [] && participants == [] && messages == [] && this.users == users
    {
      conversations := [];
      participants := [];
      messages := [];
      this.users := users;
    }

    /**
     * `sendMessage`: a non-member is refused and nothing changes; otherwise the
     * message is stored, the conversation's preview and the sender's read mark
     * move to it, and every participant of the conversation is a recipient.
     */
    method SendMessage(senderId: string, conversationId: nat, content: string, kind: MessageType, now: int)
      returns (r: Result<(Message, seq<string>), ChatError>)
      modifies this
      ensures users == old(users)
      ensures !IsParticipant(old(participants), conversationId, senderId) ==>
        r == Failure(Forbidden) && conversations == old(conversations) && participants == old(participants) && messages == old(messages)
      ensures IsParticipant(old(participants), conversationId, senderId) ==>
        var m := Message(|old(messages)|, conversationId, senderId, content, kind, now);
        && messages == old(messages) + [m]
        && conversations == Touch(old(conversations), conversationId, senderId, kind, content, now)
        && participants == MarkRead(old(participants), conversationId, senderId, now)
        && r == Success((m, Recipients(participants, conversationId)))
    {
      if !IsParticipant(participants, conversationId, senderId) {
        return Failure(Forbidden);
      }
      var message := Message(|messages|, conversationId, senderId, content, kind, now);
      messages := messages + [message];
      if conversationId < |conversations| {
        var c := conversations[conversationId];
        conversations := conversations[conversationId := c.(lastMessage := Some(Preview(kind, content)),
          lastMessageSenderId := Some(senderId), lastMessageAt := message.createdAt, lastMessageType := Some(kind))];
      }
      participants := MarkRead(participants, conversationId, senderId, message.createdAt);
      var recipientIds := Recipients(participants, conversationId);
      r := Success((message, recipientIds));
    }

    /** `getMessages`: a non-member is refused; a member gets a page of the conversation's messages. */
    method GetMessages(conversationId: nat, userId: string, options: QH.PaginationOptions,
                       countOf: Query -> Option<nat>, fetch: Query -> seq<Message>)
      returns (r: Result<QH.Paginated<Message>, ChatError>)
      ensures !IsParticipant(participants, conversationId, userId) <==> r == Failure(Forbidden)
      ensures r.Success? ==> r.value == QH.Paginate(MessagesQuery(conversationId), options, countOf, fetch).1
    {
      if !IsParticipant(participants, conversationId, userId) {
        return Failure(Forbidden);
      }
      var (_, page) := QH.Paginate(MessagesQuery(conversationId), options, countOf, fetch);
      r := Success(page);
    }

    /**
     * `createGroupChat`: a group conversation and one participant row per
     * distinct member, in one transaction; a member id with no user makes the
     * participants' insert fail and the whole transaction is rolled back.
     */
    method CreateGroupChat(creatorId: string, name: Option<string>, memberIds: seq<string>, now: int)
      returns (r: Result<nat, ChatError>)
      modifies this
      ensures users == old(users) && messages == old(messages)
      ensures r.Failure? <==> !MembersExist(old(users), creatorId, memberIds)
      ensures r.Failure? ==> r.error == ForeignKey && conversations == old(conversations) && participants == old(participants)
      ensures r.Success? ==>
        && r.value == |old(conversations)|
        && conversations == old(conversations) + [Conversation(Group, name, None, None, now, None)]
        && participants == old(participants) + GroupParticipants(r.value, creatorId, memberIds, now)
    {
      if !MembersExist(users, creatorId, memberIds) {
        return Failure(ForeignKey);
      }
      var id := |conversations|;
      conversations := conversations + [Conversation(Group, name, None, None, now, None)];
      var uniqueIds := Dedup([creatorId] + memberIds);
      var rows: seq<Participant> := [];
      for i := 0 to |uniqueIds|
        invariant rows == GroupParticipants(id, creatorId, memberIds, now)[..i]
      {
        var uid := uniqueIds[i];
        rows := rows + [Participant(id, uid, uid == creatorId, None, now)];
      }
      participants := participants + rows;
      r := Success(id);
    }

    /**
     * `getOrCreateDirectConversation`: refused with oneself and with an unknown
     * receiver; an existing direct conversation of the two is returned as it is;
     * otherwise a direct conversation with exactly the two of them is created.
     */
    method GetOrCreateDirectConversation(senderId: string, receiverId: string, now: int) returns (r: Result<nat, ChatError>)
      modifies this
      ensures users == old(users) && messages == old(messages)
      ensures senderId == receiverId ==> r == Failure(BadRequest)
      ensures senderId != receiverId && receiverId !in users ==> r == Failure(NotFound(UserNotFound))
      ensures r.Failure? || FindDirect(old(conversations), old(participants), senderId, receiverId, 0).Some? ==>
        conversations == old(conversations) && participants == old(participants)
      ensures senderId != receiverId && receiverId in users ==>
        match FindDirect(old(conversations), old(participants), senderId, receiverId, 0)
        case Some(i) => r == Success(i)
        case None =>
          && r == Success(|old(conversations)|)
          && conversations == old(conversations) + [Conversation(Direct, None, None, None, now, None)]
          && participants == old(participants) + [Participant(|old(conversations)|, senderId, false, None, now),
                                                  Participant(|old(conversations)|, receiverId, false, None, now)]
    {
      if senderId == receiverId {
        return Failure(BadRequest);
      }
      if receiverId !in users {
        return Failure(NotFound(UserNotFound));
      }
      var existing := FindDirect(conversations, participants, senderId, receiverId, 0);
      if existing.Some? {
        return Success(existing.value);
      }
      var id := |conversations|;
      conversations := conversations + [Conversation(Direct, None, None, None, now, None)];
      participants := participants + [Participant(id, senderId, false, None, now), Participant(id, receiverId, false, None, now)];
      r := Success(id);
    }
  }

  /** After a message, the sender is among the recipients and only the sender's read mark moved. */
  lemma SendMessageEffects(ps: seq<Participant>, conversationId: nat, senderId: string, now: int)
    requires IsParticipant(ps, conversationId, senderId)
    ensures var after := MarkRead(ps, conversationId, senderId, now);
      && senderId in Recipients(after, conversationId)
      && Recipients(after, conversationId) == Recipients(ps, conversationId)
      && (forall i :: 0 <= i < |ps| && !(ps[i].conversationId == conversationId && ps[i].userId == senderId) ==> after[i] == ps[i])
  {
    var after := MarkRead(ps, conversationId, senderId, now);
    var i :| 0 <= i < |ps| && ps[i].conversationId == conversationId && ps[i].userId == senderId;
    assert after[i].conversationId == conversationId && after[i].userId == senderId;
    RecipientsIgnoreReadMarks(ps, after, conversationId);
  }

  lemma {:induction false} RecipientsIgnoreReadMarks(ps: seq<Participant>, qs: seq<Participant>, conversationId: nat)
    requires |ps| == |qs| && forall i :: 0 <= i < |ps| ==> ps[i].conversationId == qs[i].conversationId && ps[i].userId == qs[i].userId
    ensures Recipients(ps, conversationId) == Recipients(qs, conversationId)
  {
    if |ps| > 0 {
      RecipientsIgnoreReadMarks(ps[..|ps| - 1], qs[..|qs| - 1], conversationId);
    }
  }

  /** Every participant row names a conversation that exists. */
  predicate RowsInRange(cs: seq<Conversation>, ps: seq<Participant>) {
    forall i :: 0 <= i < |ps| ==> ps[i].conversationId < |cs|
  }

  /**
   * A new direct conversation holds exactly its two users, and asking again for
   * the pair finds it instead of creating another.
   */
  lemma DirectFoundAgain(cs: seq<Conversation>, ps: seq<Participant>, a: string, b: string, now: int)
    requires RowsInRange(cs, ps) && FindDirect(cs, ps, a, b, 0).None?
    ensures var id := |cs|;
      var cs2 := cs + [Conversation(Direct, None, None, None, now, None)];
      var ps2 := ps + [Participant(id, a, false, None, now), Participant(id, b, false, None, now)];
      && RowsInRange(cs2, ps2)
      && FindDirect(cs2, ps2, a, b, 0) == Some(id)
      && forall u :: IsParticipant(ps2, id, u) <==> u == a || u == b
  {
    var id := |cs|;
    var cs2 := cs + [Conversation(Direct, None, None, None, now, None)];
    var ps2 := ps + [Participant(id, a, false, None, now), Participant(id, b, false, None, now)];
    assert ps2[|ps|].userId == a && ps2[|ps| + 1].userId == b;
    forall c: nat, u | c < id ensures IsParticipant(ps2, c, u) <==> IsParticipant(ps, c, u) {
      if IsParticipant(ps2, c, u) {
        var i :| 0 <= i < |ps2| && ps2[i].conversationId == c && ps2[i].userId == u;
        assert i < |ps| && ps[i] == ps2[i];
      }
      if IsParticipant(ps, c, u) {
        var i :| 0 <= i < |ps| && ps[i].conversationId == c && ps[i].userId == u;
        assert ps2[i] == ps[i];
      }
    }
    FindDirectNewLast(cs, ps, cs2, ps2, a, b, 0);
  }

  /** A lookup that found nothing among the old conversations reaches the appended one. */
  lemma {:induction false} FindDirectNewLast(cs: seq<Conversation>, ps: seq<Participant>, cs2: seq<Conversation>,
                                             ps2: seq<Participant>, a: string, b: string, from: nat)
    requires from <= |cs| && |cs2| == |cs| + 1 && cs2[..|cs|] == cs && cs2[|cs|].kind == Direct
    requires IsParticipant(ps2, |cs|, a) && IsParticipant(ps2, |cs|, b)
    requires forall c: nat, u | c < |cs| :: IsParticipant(ps2, c, u) <==> IsParticipant(ps, c, u)
    requires FindDirect(cs, ps, a, b, from).None?
    ensures FindDirect(cs2, ps2, a, b, from) == Some(|cs|)
    decreases |cs| - from
  {
    if from < |cs| {
      assert cs2[from] == cs[from];
      FindDirectNewLast(cs, ps, cs2, ps2, a, b, from + 1);
    }
  }
}
