/**
 The inbox query and the conversation query (inbox and private_chat in
 secure-coding/app/blueprints/chat.py).

 The inbox is computed the way its SQL says: two selections put together by UNION ALL, joined with
 the users, grouped by partner, ordered by the latest message. It is shown to be the plain thing:
 one row for everybody with a conversation, dated by the last message of that conversation.
 */
module Inbox {
  import opened Base
  import opened Schema
  import opened Chat

  // created_at strings of one format compare like the times they stand for
  datatype Row = Row(partner: UserId, at: real)

  // ----------------------------------------------------------------------------------- the query

  /** SELECT receiver_id ... WHERE sender_id = me AND receiver_id IS NOT NULL */
  function SentBy(messages: seq<Message>, me: UserId): seq<Row> {
    if messages == [] then []
    else
      var m := messages[|messages| - 1];
      SentBy(messages[..|messages| - 1], me)
      + (if m.sender == me && m.receiver.Some? then [Row(m.receiver.value, m.at)] else [])
  }

  /** SELECT sender_id ... WHERE receiver_id = me */
  function ReceivedBy(messages: seq<Message>, me: UserId): seq<Row> {
    if messages == [] then []
    else
      var m := messages[|messages| - 1];
      ReceivedBy(messages[..|messages| - 1], me) + (if m.receiver == Some(me) then [Row(m.sender, m.at)] else [])
  }

  /** JOIN user u ON u.id = t.pid */
  function Joined(rows: seq<Row>, users: set<UserId>): seq<Row> {
    if rows == [] then []
    else
      Joined(rows[..|rows| - 1], users) + (if rows[|rows| - 1].partner in users then [rows[|rows| - 1]] else [])
  }

  /** GROUP BY u.id with MAX(created_at): one pass over the rows. */
  function Grouped(rows: seq<Row>): map<UserId, real> {
    if rows == [] then map[]
    else
      var groups, r := Grouped(rows[..|rows| - 1]), rows[|rows| - 1];
      groups[r.partner := if r.partner in groups && groups[r.partner] > r.at then groups[r.partner] else r.at]
  }

  /** ORDER BY last_at DESC: any listing of the groups in that order will do, ties as they come. */
  ghost predicate Lists(listing: seq<Row>, groups: map<UserId, real>) {
    && (forall i, j :: 0 <= i < j < |listing| ==> listing[i].at >= listing[j].at)
    && (forall i, j :: 0 <= i < j < |listing| ==> listing[i].partner != listing[j].partner)
    && (forall u, t :: Row(u, t) in listing <==> u in groups && groups[u] == t)
  }

  lemma {:induction false} LatestExists(groups: map<UserId, real>)
    requires groups != map[]
    ensures exists u :: u in groups && forall v :: v in groups ==> groups[v] <= groups[u]
    decreases |groups|
  {
    var k :| k in groups;
    var rest := groups - {k};
    if rest == map[] {
      assert forall v :: v in groups ==> v == k || v in rest;
    } else {
      LatestExists(rest);
      var u :| u in rest && forall v :: v in rest ==> rest[v] <= rest[u];
      assert forall v :: v in groups ==> v == k || v in rest;
      assert if groups[k] <= groups[u] then forall v :: v in groups ==> groups[v] <= groups[u]
             else forall v :: v in groups ==> groups[v] <= groups[k];
    }
  }

  /** A listing in that order can always be given. */
  lemma {:induction false} ListingExists(groups: map<UserId, real>) returns (listing: seq<Row>)
    ensures Lists(listing, groups)
    decreases |groups|
  {
    if groups == map[] {
      listing := [];
    } else {
      LatestExists(groups);
      var u :| u in groups && forall v :: v in groups ==> groups[v] <= groups[u];
      var rest := ListingExists(groups - {u});
      assert forall r :: r in rest ==> r == Row(r.partner, r.at);
      listing := [Row(u, groups[u])] + rest;
      forall i, j | 0 <= i < j < |listing|
        ensures listing[i].at >= listing[j].at && listing[i].partner != listing[j].partner
      {
        assert listing[j] in rest;
      }
    }
  }

  function Groups(messages: seq<Message>, users: set<UserId>, me: UserId): map<UserId, real> {
    Grouped(Joined(SentBy(messages, me) + ReceivedBy(messages, me), users))
  }

  ghost predicate InboxOf(listing: seq<Row>, messages: seq<Message>, users: set<UserId>, me: UserId) {
    Lists(listing, Groups(messages, users, me))
  }

  // ---------------------------------------------------------------------------- the specification

  /** The filter of private_chat. */
  predicate Between(m: Message, me: UserId, other: UserId) {
    (m.sender == me && m.receiver == Some(other)) || (m.sender == other && m.receiver == Some(me))
  }

  function Conversation(messages: seq<Message>, me: UserId, other: UserId): seq<Message> {
    if messages == [] then []
    else
      Conversation(messages[..|messages| - 1], me, other)
      + (if Between(messages[|messages| - 1], me, other) then [messages[|messages| - 1]] else [])
  }

  /** `last` is the time of a message of the conversation, and no message of it is later. */
  ghost predicate LastOf(conversation: seq<Message>, last: real) {
    && (exists m :: m in conversation && m.at == last)
    && (forall m :: m in conversation ==> m.at <= last)
  }

  /** What the table's constraints and the senders' check guarantee. */
  predicate WellFormed(messages: seq<Message>, users: set<UserId>) {
    forall m :: m in messages ==>
      m.sender in users && (m.receiver.Some? ==> m.receiver.value in users && m.receiver.value != m.sender)
  }

  // ------------------------------------------------------------------------------------ the proof

  lemma {:induction false} SentRows(messages: seq<Message>, me: UserId, r: Row)
    ensures r in SentBy(messages, me) <==>
      exists m :: m in messages && m.sender == me && m.receiver == Some(r.partner) && m.at == r.at
  {
    if messages != [] {
      var front, last := messages[..|messages| - 1], messages[|messages| - 1];
      SentRows(front, me, r);
      assert forall m :: m in messages <==> m in front || m == last;
    }
  }

  lemma {:induction false} ReceivedRows(messages: seq<Message>, me: UserId, r: Row)
    ensures r in ReceivedBy(messages, me) <==>
      exists m :: m in messages && m.receiver == Some(me) && m.sender == r.partner && m.at == r.at
  {
    if messages != [] {
      var front, last := messages[..|messages| - 1], messages[|messages| - 1];
      ReceivedRows(front, me, r);
      assert forall m :: m in messages <==> m in front || m == last;
    }
  }

  lemma {:induction false} JoinedRows(rows: seq<Row>, users: set<UserId>, r: Row)
    ensures r in Joined(rows, users) <==> r in rows && r.partner in users
  {
    if rows != [] {
      JoinedRows(rows[..|rows| - 1], users, r);
    }
  }

  lemma {:induction false} ConversationRows(messages: seq<Message>, me: UserId, other: UserId, m: Message)
    ensures m in Conversation(messages, me, other) <==> m in messages && Between(m, me, other)
  {
    if messages != [] {
      ConversationRows(messages[..|messages| - 1], me, other, m);
    }
  }

  /** A group holds the latest of its rows, and there is one for each partner among the rows. */
  lemma {:induction false} GroupedRows(rows: seq<Row>, u: UserId)
    ensures u in Grouped(rows) ==> Row(u, Grouped(rows)[u]) in rows
    ensures forall r :: r in rows && r.partner == u ==> u in Grouped(rows) && r.at <= Grouped(rows)[u]
  {
    if rows != [] {
      var front, last := rows[..|rows| - 1], rows[|rows| - 1];
      GroupedRows(front, u);
      assert forall r :: r in rows <==> r in front || r == last;
    }
  }

  /** The rows UNION ALL and JOIN leave for u are the times of the conversation with u. */
  lemma {:induction false} UnionIsConversation(messages: seq<Message>, users: set<UserId>, me: UserId, r: Row)
    requires WellFormed(messages, users)
    ensures r in Joined(SentBy(messages, me) + ReceivedBy(messages, me), users) <==>
      exists m :: m in Conversation(messages, me, r.partner) && m.at == r.at
  {
    var rows := SentBy(messages, me) + ReceivedBy(messages, me);
    JoinedRows(rows, users, r);
    SentRows(messages, me, r);
    ReceivedRows(messages, me, r);
    assert r in rows <==> r in SentBy(messages, me) || r in ReceivedBy(messages, me);
    if exists m :: m in Conversation(messages, me, r.partner) && m.at == r.at {
      var m :| m in Conversation(messages, me, r.partner) && m.at == r.at;
      ConversationRows(messages, me, r.partner, m);
    }
    if r in rows {
      var m :| m in messages && Between(m, me, r.partner) && m.at == r.at;
      ConversationRows(messages, me, r.partner, m);
    }
  }

  lemma {:induction false} GroupsAreConversations(messages: seq<Message>, users: set<UserId>, me: UserId, u: UserId)
    requires WellFormed(messages, users)
    ensures u in Groups(messages, users, me) <==> Conversation(messages, me, u) != []
    ensures u in Groups(messages, users, me) ==> LastOf(Conversation(messages, me, u), Groups(messages, users, me)[u])
  {
    var rows := Joined(SentBy(messages, me) + ReceivedBy(messages, me), users);
    var conversation := Conversation(messages, me, u);
    GroupedRows(rows, u);
    forall m | m in conversation
      ensures Row(u, m.at) in rows
    {
      UnionIsConversation(messages, users, me, Row(u, m.at));
    }
    if conversation != [] {
      assert conversation[0] in conversation;
    }
    if u in Grouped(rows) {
      UnionIsConversation(messages, users, me, Row(u, Grouped(rows)[u]));
    }
  }

  /**
   u is in my inbox, and then once, exactly when the conversation page with u has a message; the row
   is dated by the latest of exactly the messages that page selects. The latest dates come first.
   */
  lemma {:induction false} InboxIsConversations(
      listing: seq<Row>, messages: seq<Message>, users: set<UserId>, me: UserId, u: UserId)
    requires WellFormed(messages, users) && InboxOf(listing, messages, users, me)
    ensures (exists i :: 0 <= i < |listing| && listing[i].partner == u) <==> Conversation(messages, me, u) != []
    ensures forall i, j :: 0 <= i < j < |listing| ==> !(listing[i].partner == u && listing[j].partner == u)
    ensures forall i :: 0 <= i < |listing| && listing[i].partner == u ==>
      LastOf(Conversation(messages, me, u), listing[i].at)
    ensures forall i, j :: 0 <= i < j < |listing| ==> listing[i].at >= listing[j].at
  {
    GroupsAreConversations(messages, users, me, u);
    var groups := Groups(messages, users, me);
    if u in groups {
      assert Row(u, groups[u]) in listing;
    }
    forall i | 0 <= i < |listing| && listing[i].partner == u
      ensures u in groups && groups[u] == listing[i].at
    {
      assert Row(u, listing[i].at) in listing;
    }
  }

  lemma {:induction false} SameConversation(messages: seq<Message>, a: UserId, b: UserId)
    ensures Conversation(messages, a, b) == Conversation(messages, b, a)
  {
    if messages != [] {
      SameConversation(messages[..|messages| - 1], a, b);
    }
  }

  /** Two people see the same of each other: both inboxes have the row or neither, with one date. */
  lemma {:induction false} InboxSymmetric(messages: seq<Message>, users: set<UserId>, a: UserId, b: UserId)
    requires WellFormed(messages, users)
    ensures b in Groups(messages, users, a) <==> a in Groups(messages, users, b)
    ensures b in Groups(messages, users, a) ==> Groups(messages, users, a)[b] == Groups(messages, users, b)[a]
  {
    GroupsAreConversations(messages, users, a, b);
    GroupsAreConversations(messages, users, b, a);
    SameConversation(messages, a, b);
  }

  /** Nobody is in his own inbox. */
  lemma {:induction false} NotOneself(messages: seq<Message>, users: set<UserId>, me: UserId)
    requires WellFormed(messages, users)
    ensures me !in Groups(messages, users, me)
  {
    GroupsAreConversations(messages, users, me, me);
    if Conversation(messages, me, me) != [] {
      var m := Conversation(messages, me, me)[0];
      ConversationRows(messages, me, me, m);
    }
  }

  /** Every private message is on the page of one pair of people, and of no other pair. */
  lemma {:induction false} PairsPartition(messages: seq<Message>, users: set<UserId>, m: Message)
    requires WellFormed(messages, users) && m in messages && m.receiver.Some?
    ensures m.sender != m.receiver.value
    ensures forall a: UserId, b: UserId :: m in Conversation(messages, a, b) <==> {a, b} == {m.sender, m.receiver.value}
  {
    forall a: UserId, b: UserId
      ensures m in Conversation(messages, a, b) <==> {a, b} == {m.sender, m.receiver.value}
    {
      ConversationRows(messages, a, b, m);
      if {a, b} == {m.sender, m.receiver.value} {
        assert a in {m.sender, m.receiver.value} && b in {m.sender, m.receiver.value};
        assert m.sender in {a, b} && m.receiver.value in {a, b};
      }
    }
  }

  /** A global message is on no conversation page. */
  lemma {:induction false} GlobalStaysOut(messages: seq<Message>, m: Message, a: UserId, b: UserId)
    requires m.receiver.None?
    ensures m !in Conversation(messages, a, b)
  {
    ConversationRows(messages, a, b, m);
  }

  /** The chat room keeps no message to oneself, as the partition needs. */
  lemma {:induction false} RoomIsWellFormed(room: Room, users: set<UserId>)
    requires room.Valid()
    requires forall m :: m in room.messages ==>
      m.sender in users && (m.receiver.Some? ==> m.receiver.value in users)
    ensures WellFormed(room.messages, users)
  {
  }
}
