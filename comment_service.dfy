/** `CommentService` (src/comment/comment.service.ts): creating a comment
    with its mention and reply notifications, toggling a like, and removing
    a comment as its author.

    The three repositories (comments, users, notifications) and the
    WebSocket gateway are the fields of `CommentStore`: comments by id,
    users in table order, saved notifications and pushed messages in the
    order they were produced. */
module CommentService {
  import opened Wrappers
  import opened JsStrings

  // ---------------------------------------------------------------------
  // Mention extraction: `content.match(/@(\w+)/g)`, '@' stripped, duplicates dropped

  /** `\w` in a JavaScript regular expression without the `u` flag. */
  predicate IsWordChar(c: char) {
    ('a' <= c <= 'z') || ('A' <= c <= 'Z') || ('0' <= c <= '9') || c == '_'
  }

  /** The end of the run of word characters that starts at `j`. */
  function RunEnd(s: string, j: nat): (k: nat)
    requires j <= |s|
    ensures j <= k <= |s|
    ensures forall m :: j <= m < k ==> IsWordChar(s[m])
    ensures k == |s| || !IsWordChar(s[k])
    ensures j < |s| && IsWordChar(s[j]) ==> j < k
    decreases |s| - j
  {
    if j < |s| && IsWordChar(s[j]) then RunEnd(s, j + 1) else j
  }

  /** A match of `/@(\w+)/` starts at `i`. */
  predicate MentionAt(s: string, i: nat) {
    i + 1 < |s| && s[i] == '@' && IsWordChar(s[i + 1])
  }

  /** The match starting at `i`: the '@' and the longest run of word characters after it. */
  function MentionMatch(s: string, i: nat): (m: string)
    requires MentionAt(s, i)
    ensures |m| >= 2 && m[0] == '@'
  {
    s[i..RunEnd(s, i + 1)]
  }

  /** The matches of the global regular expression from position `i` on:
      a match resumes the search where it ends, a failed attempt one
      position further. */
  function MatchesFrom(s: string, i: nat): (ms: seq<string>)
    requires i <= |s|
    ensures forall k :: 0 <= k < |ms| ==> |ms[k]| >= 2 && ms[k][0] == '@'
    decreases |s| - i
  {
    if i == |s| then []
    else if MentionAt(s, i) then [MentionMatch(s, i)] + MatchesFrom(s, RunEnd(s, i + 1))
    else MatchesFrom(s, i + 1)
  }

  /** The position of the first occurrence of `x`. */
  function FirstIndex(xs: seq<string>, x: string): (k: nat)
    requires x in xs
    ensures k < |xs| && xs[k] == x && forall i :: 0 <= i < k ==> xs[i] != x
  {
    if xs[0] == x then 0 else FirstIndex(xs[1..], x) + 1
  }

  /** Within a prefix, an element's first occurrence is the same as in the whole. */
  lemma FirstIndexPrefix(xs: seq<string>, m: nat)
    requires m <= |xs|
    ensures forall y :: y in xs[..m] ==> FirstIndex(xs, y) == FirstIndex(xs[..m], y)
  {
    forall y | y in xs[..m]
      ensures FirstIndex(xs, y) == FirstIndex(xs[..m], y)
    {
      var k1 := FirstIndex(xs, y);
      var k2 := FirstIndex(xs[..m], y);
      assert xs[k2] == y;
      assert forall i :: 0 <= i < k2 ==> xs[i] == xs[..m][i];
      assert xs[k1] == y;
    }
  }

  /** `[...new Set(xs)]`: each element once, at the place of its first occurrence. */
  function Dedup(xs: seq<string>): (ys: seq<string>)
    ensures forall x :: x in ys <==> x in xs
    ensures forall i, j :: 0 <= i < j < |ys| ==> ys[i] != ys[j]
    ensures forall i, j :: 0 <= i < j < |ys| ==> FirstIndex(xs, ys[i]) < FirstIndex(xs, ys[j])
    decreases |xs|
  {
    if xs == [] then []
    else
      var n := |xs|;
      var front := xs[..n - 1];
      var d := Dedup(front);
      var last := xs[n - 1];
      assert xs == front + [last];
      FirstIndexPrefix(xs, n - 1);
      if last in d then d
      else
        assert FirstIndex(xs, last) == n - 1;
        d + [last]
  }

  function StripAt(ms: seq<string>): (names: seq<string>)
    requires forall k :: 0 <= k < |ms| ==> |ms[k]| >= 1
    ensures |names| == |ms| && forall k :: 0 <= k < |ms| ==> names[k] == ms[k][1..]
  {
    seq(|ms|, k requires 0 <= k < |ms| => ms[k][1..])
  }

  /** `extractFirstNames(content)`. */
  function ExtractFirstNames(content: string): (names: seq<string>)
    ensures forall i, j :: 0 <= i < j < |names| ==> names[i] != names[j]
  {
    Dedup(StripAt(MatchesFrom(content, 0)))
  }

  /** Every match from `i` on is the mention starting at some position at or after `i`. */
  lemma {:induction false} MatchesFromSound(s: string, i: nat, k: nat) returns (j: nat)
    requires i <= |s| && k < |MatchesFrom(s, i)|
    ensures i <= j < |s| && MentionAt(s, j) && MatchesFrom(s, i)[k] == MentionMatch(s, j)
    decreases |s| - i
  {
    if MentionAt(s, i) {
      if k == 0 {
        j := i;
      } else {
        j := MatchesFromSound(s, RunEnd(s, i + 1), k - 1);
      }
    } else {
      j := MatchesFromSound(s, i + 1, k);
    }
  }

  /** Every mention starting at or after `i` is among the matches from `i` on. */
  lemma {:induction false} MatchesFromComplete(s: string, i: nat, j: nat)
    requires i <= j < |s| && MentionAt(s, j)
    ensures MentionMatch(s, j) in MatchesFrom(s, i)
    decreases |s| - i
  {
    if i < j {
      if MentionAt(s, i) {
        var e := RunEnd(s, i + 1);
        assert !IsWordChar(s[j]);
        assert e <= j;
        MatchesFromComplete(s, e, j);
      } else {
        MatchesFromComplete(s, i + 1, j);
      }
    }
  }

  /** A first name is extracted exactly when it is the whole run of word
      characters after some '@'; with no such '@' the list is empty. */
  lemma ExtractFirstNamesSpec(content: string, name: string)
    ensures name in ExtractFirstNames(content) <==>
      exists j :: 0 <= j < |content| && MentionAt(content, j) && name == content[j + 1..RunEnd(content, j + 1)]
  {
    var ms := MatchesFrom(content, 0);
    var names := StripAt(ms);
    if name in names {
      var k :| 0 <= k < |names| && names[k] == name;
      var j := MatchesFromSound(content, 0, k);
      assert name == content[j + 1..RunEnd(content, j + 1)];
    }
    if exists j :: 0 <= j < |content| && MentionAt(content, j) && name == content[j + 1..RunEnd(content, j + 1)] {
      var j :| 0 <= j < |content| && MentionAt(content, j) && name == content[j + 1..RunEnd(content, j + 1)];
      var m := MentionMatch(content, j);
      MatchesFromComplete(content, 0, j);
      var k :| 0 <= k < |ms| && ms[k] == m;
      assert names[k] == name;
    }
  }

  /** The extracted names keep the order in which each first appears. */
  lemma ExtractFirstNamesOrder(content: string)
    ensures var names := ExtractFirstNames(content);
      var stripped := StripAt(MatchesFrom(content, 0));
      forall i, j :: 0 <= i < j < |names| ==> FirstIndex(stripped, names[i]) < FirstIndex(stripped, names[j])
  {
  }

  // ---------------------------------------------------------------------
  // Notifications

  datatype NotificationType = REPLY | MENTION

  /** A row of the users table, as far as comments use it. */
  datatype UserRef = UserRef(id: nat, firstName: string, lastName: Option<string>)

  /** A notification row: type, recipient, sender and comment. */
  datatype Notification = Notification(kind: NotificationType, recipient: nat, sender: nat, commentId: nat)

  /** What the gateway pushes to the recipient for each saved notification. */
  datatype Push = Push(recipient: nat, kind: NotificationType, senderName: string, commentId: nat, message: string)

  /** The MENTION notifications, in the order of the mentioned users, skipping the author. */
  function MentionsFor(mentioned: seq<UserRef>, authorId: nat, commentId: nat): (ns: seq<Notification>)
    ensures |ns| <= |mentioned|
    ensures forall k :: 0 <= k < |ns| ==>
      ns[k].kind == MENTION && ns[k].sender == authorId && ns[k].recipient != authorId && ns[k].commentId == commentId
    ensures forall k :: 0 <= k < |ns| ==> ns[k].recipient in Ids(mentioned)
    ensures forall u :: u in mentioned && u.id != authorId ==> Notification(MENTION, u.id, authorId, commentId) in ns
  {
    if mentioned == [] then []
    else
      var n := |mentioned|;
      var u := mentioned[n - 1];
      var front := MentionsFor(mentioned[..n - 1], authorId, commentId);
      assert mentioned == mentioned[..n - 1] + [u];
      if u.id != authorId then front + [Notification(MENTION, u.id, authorId, commentId)] else front
  }

  /** Mentions are collected one user at a time, in order. */
  lemma MentionsForSnoc(mentioned: seq<UserRef>, u: UserRef, authorId: nat, commentId: nat)
    ensures MentionsFor(mentioned + [u], authorId, commentId) ==
      MentionsFor(mentioned, authorId, commentId) + (if u.id != authorId then [Notification(MENTION, u.id, authorId, commentId)] else [])
  {
    assert (mentioned + [u])[..|mentioned|] == mentioned;
  }

  /** `idx` lists, in increasing order, exactly the positions of the
      mentioned users other than the author, and `ns[k]` is the MENTION of
      the user at position `idx[k]`. */
  predicate MentionPositions(mentioned: seq<UserRef>, authorId: nat, commentId: nat, ns: seq<Notification>, idx: seq<nat>) {
    && |idx| == |ns|
    && (forall k :: 0 <= k < |idx| ==>
          && idx[k] < |mentioned| && mentioned[idx[k]].id != authorId
          && ns[k] == Notification(MENTION, mentioned[idx[k]].id, authorId, commentId))
    && (forall k, l :: 0 <= k < l < |idx| ==> idx[k] < idx[l])
    && (forall j :: 0 <= j < |mentioned| && mentioned[j].id != authorId ==> j in idx)
  }

  /** Adding one mentioned user extends the positions by its own, unless it is the author. */
  lemma PositionsSnoc(front: seq<UserRef>, u: UserRef, authorId: nat, commentId: nat, ns0: seq<Notification>, idx0: seq<nat>)
    requires MentionPositions(front, authorId, commentId, ns0, idx0)
    ensures u.id != authorId ==>
      MentionPositions(front + [u], authorId, commentId, ns0 + [Notification(MENTION, u.id, authorId, commentId)], idx0 + [|front|])
    ensures u.id == authorId ==> MentionPositions(front + [u], authorId, commentId, ns0, idx0)
  {
    var m := front + [u];
    forall k | 0 <= k < |idx0|
      ensures idx0[k] < |front| && m[idx0[k]] == front[idx0[k]]
    {
    }
    forall j | 0 <= j < |front| && m[j].id != authorId
      ensures j in idx0
    {
      assert m[j] == front[j];
    }
    if u.id != authorId {
      var idx := idx0 + [|front|];
      forall j | 0 <= j < |m| && m[j].id != authorId
        ensures j in idx
      {
        if j == |front| {
          assert idx[|idx0|] == j;
        }
      }
    }
  }

  /** Exactly one MENTION per mentioned user other than the author, in the
      order of the mentioned users. */
  lemma {:induction false} MentionsForOrder(mentioned: seq<UserRef>, authorId: nat, commentId: nat) returns (idx: seq<nat>)
    ensures MentionPositions(mentioned, authorId, commentId, MentionsFor(mentioned, authorId, commentId), idx)
  {
    if mentioned == [] {
      idx := [];
    } else {
      var n := |mentioned|;
      var front := mentioned[..n - 1];
      var u := mentioned[n - 1];
      var idx0 := MentionsForOrder(front, authorId, commentId);
      var ns0 := MentionsFor(front, authorId, commentId);
      assert mentioned == front + [u];
      MentionsForSnoc(front, u, authorId, commentId);
      PositionsSnoc(front, u, authorId, commentId, ns0, idx0);
      if u.id != authorId {
        idx := idx0 + [n - 1];
        assert MentionsFor(mentioned, authorId, commentId) == ns0 + [Notification(MENTION, u.id, authorId, commentId)];
      } else {
        idx := idx0;
        assert MentionsFor(mentioned, authorId, commentId) == ns0;
      }
    }
  }

  /** The REPLY notification (when there is a parent author other than the
      author) followed by the MENTION notifications. */
  function NotificationsFor(replyTo: Option<nat>, authorId: nat, mentioned: seq<UserRef>, commentId: nat): (ns: seq<Notification>)
    ensures |ns| <= |mentioned| + 1
    ensures forall k :: 0 <= k < |ns| ==> ns[k].sender == authorId && ns[k].recipient != authorId && ns[k].commentId == commentId
  {
    (if replyTo.Some? && replyTo.value != authorId then [Notification(REPLY, replyTo.value, authorId, commentId)] else [])
    + MentionsFor(mentioned, authorId, commentId)
  }

  /** There is a REPLY notification exactly when the parent has an author
      other than the commenter, and it comes before every MENTION. */
  lemma ReplyRule(replyTo: Option<nat>, authorId: nat, mentioned: seq<UserRef>, commentId: nat)
    ensures var ns := NotificationsFor(replyTo, authorId, mentioned, commentId);
      && ((exists k :: 0 <= k < |ns| && ns[k].kind == REPLY) <==> replyTo.Some? && replyTo.value != authorId)
      && (forall k :: 0 < k < |ns| ==> ns[k].kind == MENTION)
  {
    var ns := NotificationsFor(replyTo, authorId, mentioned, commentId);
    var ms := MentionsFor(mentioned, authorId, commentId);
    if replyTo.Some? && replyTo.value != authorId {
      assert ns[0].kind == REPLY;
      assert forall k :: 0 < k < |ns| ==> ns[k] == ms[k - 1];
    } else {
      assert ns == ms;
    }
  }

  /** Nothing is produced exactly when there is no reply to notify and every
      mentioned user is the author. */
  lemma NothingToNotify(replyTo: Option<nat>, authorId: nat, mentioned: seq<UserRef>, commentId: nat)
    ensures NotificationsFor(replyTo, authorId, mentioned, commentId) == [] <==>
      !(replyTo.Some? && replyTo.value != authorId) && forall u :: u in mentioned ==> u.id == authorId
  {
    if forall u :: u in mentioned ==> u.id == authorId {
      NoMentions(mentioned, authorId, commentId);
    }
  }

  lemma {:induction false} NoMentions(mentioned: seq<UserRef>, authorId: nat, commentId: nat)
    requires forall u :: u in mentioned ==> u.id == authorId
    ensures MentionsFor(mentioned, authorId, commentId) == []
  {
    if mentioned != [] {
      var n := |mentioned|;
      assert mentioned[n - 1] in mentioned;
      NoMentions(mentioned[..n - 1], authorId, commentId);
    }
  }

  /** `${firstName} ${lastName || ''}`: the first name, a space, then the last
      name if there is one (a missing one leaves the trailing space). */
  function SenderName(author: UserRef): (name: string)
    ensures StartsWith(name, author.firstName + " ")
    ensures author.lastName.None? ==> name == author.firstName + " "
  {
    var head := author.firstName + " ";
    var name := head + (match author.lastName case Some(l) => l case None => "");
    assert name[..|head|] == head;
    name
  }

  const MentionMessage: string := "vous a mentionné dans un commentaire"
  const ReplyMessage: string := "a répondu à votre commentaire"

  /** The pushed text: one for a mention, another for a reply. */
  function MessageFor(kind: NotificationType): (m: string)
    ensures m == MentionMessage <==> kind == MENTION
    ensures m == ReplyMessage <==> kind == REPLY
  {
    assert MentionMessage[0] != ReplyMessage[0];
    match kind
    case MENTION => MentionMessage
    case REPLY => ReplyMessage
  }

  function PushFor(n: Notification, author: UserRef): (p: Push)
    ensures p.recipient == n.recipient && p.kind == n.kind && p.commentId == n.commentId
  {
    Push(n.recipient, n.kind, SenderName(author), n.commentId, MessageFor(n.kind))
  }

  function PushesFor(ns: seq<Notification>, author: UserRef): (ps: seq<Push>)
    ensures |ps| == |ns| && forall k :: 0 <= k < |ns| ==> ps[k] == PushFor(ns[k], author)
  {
    seq(|ns|, k requires 0 <= k < |ns| => PushFor(ns[k], author))
  }

  /** `findBy({ firstName: In(names) })`: the users whose first name is
      listed, in table order. */
  function UsersNamed(users: seq<UserRef>, names: seq<string>): (found: seq<UserRef>)
    ensures forall u :: u in found <==> u in users && u.firstName in names
  {
    if users == [] then []
    else
      var n := |users|;
      var front := UsersNamed(users[..n - 1], names);
      assert users == users[..n - 1] + [users[n - 1]];
      if users[n - 1].firstName in names then front + [users[n - 1]] else front
  }

  function Ids(users: seq<UserRef>): (ids: seq<nat>)
    ensures |ids| == |users| && forall k :: 0 <= k < |users| ==> ids[k] == users[k].id
  {
    seq(|users|, k requires 0 <= k < |users| => users[k].id)
  }

  // ---------------------------------------------------------------------
  // Likes

  /** `likes.filter(u => u.id !== userId)`. */
  function RemoveAll(likes: seq<nat>, userId: nat): (r: seq<nat>)
    ensures userId !in r
    ensures forall v :: v != userId ==> multiset(r)[v] == multiset(likes)[v]
  {
    if likes == [] then []
    else
      var n := |likes|;
      assert likes == likes[..n - 1] + [likes[n - 1]];
      RemoveAll(likes[..n - 1], userId) + (if likes[n - 1] == userId then [] else [likes[n - 1]])
  }

  /** The like list after a toggle: all of the user's entries removed if
      there was one, otherwise the user appended. */
  function Toggled(likes: seq<nat>, userId: nat): (r: seq<nat>)
    ensures userId in r <==> userId !in likes
  {
    if userId in likes then RemoveAll(likes, userId) else likes + [userId]
  }

  /** A toggle flips whether the user likes the comment and leaves every other user's likes as they were. */
  lemma ToggleFlips(likes: seq<nat>, userId: nat)
    ensures userId in Toggled(likes, userId) <==> userId !in likes
    ensures forall v :: v != userId ==> multiset(Toggled(likes, userId))[v] == multiset(likes)[v]
  {
  }

  /** Removing a user absent from the list changes nothing. */
  lemma {:induction false} RemoveAllAbsent(likes: seq<nat>, userId: nat)
    requires userId !in likes
    ensures RemoveAll(likes, userId) == likes
  {
    if likes != [] {
      var n := |likes|;
      assert likes[n - 1] in likes;
      RemoveAllAbsent(likes[..n - 1], userId);
      assert likes == likes[..n - 1] + [likes[n - 1]];
    }
  }

  /** Liking and then unliking restores the list. */
  lemma ToggleTwice(likes: seq<nat>, userId: nat)
    requires userId !in likes
    ensures Toggled(Toggled(likes, userId), userId) == likes
  {
    var l := likes + [userId];
    assert l[..|l| - 1] == likes;
    RemoveAllAbsent(likes, userId);
  }

  // ---------------------------------------------------------------------
  // Removal

  const NotFoundDefault: string := "Not Found"
  const ForbiddenDefault: string := "Forbidden"
  const InternalDefault: string := "Internal server error"

  /** A stored comment. `deleted` is set by a soft removal; `likes` is
      `None` until the first like (a null relation). */
  datatype Comment = Comment(
    content: string,
    authorId: Option<nat>,
    articleId: int,
    parentId: Option<int>,
    mentioned: Option<seq<nat>>,
    likes: Option<seq<nat>>,
    deleted: bool)

  /** `findOne({ where: { id } })`: soft-removed comments are not found. */
  function Find(comments: map<nat, Comment>, id: int): (c: Option<Comment>)
    ensures c.Some? <==> id >= 0 && id in comments && !comments[id].deleted
    ensures c.Some? ==> c.value == comments[id]
  {
    if id >= 0 && id in comments && !comments[id].deleted then Some(comments[id]) else None
  }

  /** The checks of `remove`: a missing comment, then a comment without an
      author (reading `author.id` throws), then someone else's comment. */
  function RemoveDecision(c: Option<Comment>, userId: nat): (r: Result<Comment>)
    ensures r.Ok? <==> c.Some? && c.value.authorId == Some(userId)
    ensures r.Ok? ==> r.value == c.value
    ensures c.None? ==> r == Err(NotFound(NotFoundDefault))
    ensures c.Some? && c.value.authorId.None? ==> r == Err(InternalServerError(InternalDefault))
  {
    if c.None? then Err(NotFound(NotFoundDefault))
    else if c.value.authorId.None? then Err(InternalServerError(InternalDefault))
    else if c.value.authorId.value != userId then Err(Forbidden(ForbiddenDefault))
    else Ok(c.value)
  }

  /** Only the author of a live comment may remove it; anyone else is forbidden. */
  lemma RemoveDecisionSpec(comments: map<nat, Comment>, id: nat, userId: nat)
    ensures RemoveDecision(Find(comments, id), userId).Ok? <==>
      id in comments && !comments[id].deleted && comments[id].authorId == Some(userId)
    ensures RemoveDecision(Find(comments, id), userId) == Err(Forbidden(ForbiddenDefault)) <==>
      id in comments && !comments[id].deleted && comments[id].authorId.Some? && comments[id].authorId.value != userId
    ensures RemoveDecision(Find(comments, id), userId) == Err(NotFound(NotFoundDefault)) <==>
      id !in comments || comments[id].deleted
  {
  }

  /** The parent author to notify: only for a truthy `parentId` naming a
      live comment that has an author. */
  function ReplyTarget(comments: map<nat, Comment>, parentId: Option<int>): (r: Option<nat>)
    ensures r.Some? ==> parentId.Some? && parentId.value != 0 && Find(comments, parentId.value).Some?
    ensures parentId.Some? && parentId.value != 0 && Find(comments, parentId.value).Some? ==>
      r == Find(comments, parentId.value).value.authorId
  {
    if parentId.Some? && parentId.value != 0 then
      match Find(comments, parentId.value)
      case Some(parent) => parent.authorId
      case None => None
    else None
  }

  function LikesOf(c: Comment): seq<nat> {
    match c.likes
    case Some(l) => l
    case None => []
  }

  class CommentStore {
    var comments: map<nat, Comment>
    var users: seq<UserRef>
    var notifications: seq<Notification>
    var pushes: seq<Push>
    var nextId: nat

    ghost predicate Valid()
      reads this
    {
      forall id :: id in comments ==> id < nextId
    }

    constructor(users: seq<UserRef>)
      ensures Valid()
      ensures comments == map[] && this.users == users && notifications == [] && pushes == [] && nextId == 1
    {
      comments := map[];
      this.users := users;
      notifications := [];
      pushes := [];
      nextId := 1;
    }

    /** The notifications of a new comment: the REPLY first (if due), then
        one MENTION per mentioned user other than the author. */
    static method SelectNotifications(replyTo: Option<nat>, authorId: nat, mentioned: seq<UserRef>, commentId: nat)
      returns (ns: seq<Notification>)
      ensures ns == NotificationsFor(replyTo, authorId, mentioned, commentId)
    {
      var reply: seq<Notification> := [];
      if replyTo.Some? && replyTo.value != authorId {
        reply := [Notification(REPLY, replyTo.value, authorId, commentId)];
      }
      var mentions: seq<Notification> := [];
      var i := 0;
      while i < |mentioned|
        invariant 0 <= i <= |mentioned|
        invariant mentions == MentionsFor(mentioned[..i], authorId, commentId)
      {
        var user := mentioned[i];
        assert mentioned[..i + 1] == mentioned[..i] + [user];
        MentionsForSnoc(mentioned[..i], user, authorId, commentId);
        if user.id != authorId {
          mentions := mentions + [Notification(MENTION, user.id, authorId, commentId)];
        }
        i := i + 1;
      }
      assert mentioned[..i] == mentioned;
      ns := reply + mentions;
    }

    /** `create(dto, author)`: saves the comment (with its mentioned users
        looked up only when a name was extracted), then saves the
        notifications and pushes one message per notification, in order. */
    method Create(content: string, articleId: int, parentId: Option<int>, author: UserRef) returns (saved: nat)
      requires Valid()
      modifies this
      ensures Valid()
      ensures saved == old(nextId) && nextId == saved + 1 && saved !in old(comments)
      ensures var names := ExtractFirstNames(content);
        var mentionedUsers := if names == [] then [] else UsersNamed(old(users), names);
        && comments == old(comments)[saved := Comment(content, Some(author.id), articleId,
             if parentId.Some? && parentId.value != 0 then parentId else None,
             if names == [] then None else Some(Ids(mentionedUsers)), None, false)]
        && var ns := NotificationsFor(ReplyTarget(comments, parentId), author.id, mentionedUsers, saved);
        && notifications == old(notifications) + ns
        && pushes == old(pushes) + PushesFor(ns, author)
      ensures users == old(users)
    {
      var names := ExtractFirstNames(content);
      var mentionedUsers: seq<UserRef> := [];
      var mentioned: Option<seq<nat>> := None;
      if |names| > 0 {
        mentionedUsers := UsersNamed(users, names);
        mentioned := Some(Ids(mentionedUsers));
      }
      saved := nextId;
      var parent := if parentId.Some? && parentId.value != 0 then parentId else None;
      comments := comments[saved := Comment(content, Some(author.id), articleId, parent, mentioned, None, false)];
      nextId := nextId + 1;

      var replyTo := ReplyTarget(comments, parentId);
      var ns := SelectNotifications(replyTo, author.id, mentionedUsers, saved);
      if |ns| > 0 {
        notifications := notifications + ns;
        Broadcast(ns, author);
      }
    }

    /** The gateway pushes: one message per saved notification, in order. */
    method Broadcast(ns: seq<Notification>, author: UserRef)
      modifies this
      ensures pushes == old(pushes) + PushesFor(ns, author)
      ensures comments == old(comments) && users == old(users) && notifications == old(notifications) && nextId == old(nextId)
    {
      var i := 0;
      while i < |ns|
        invariant 0 <= i <= |ns|
        invariant comments == old(comments) && users == old(users) && notifications == old(notifications) && nextId == old(nextId)
        invariant pushes == old(pushes) + PushesFor(ns[..i], author)
      {
        pushes := pushes + [PushFor(ns[i], author)];
        i := i + 1;
        assert PushesFor(ns[..i], author) == PushesFor(ns[..i - 1], author) + [PushFor(ns[i - 1], author)];
      }
      assert ns[..i] == ns;
    }

    /** `toggleLike(commentId, user)`. */
    method ToggleLike(commentId: nat, userId: nat) returns (r: Result<Comment>)
      requires Valid()
      modifies this
      ensures Valid()
      ensures Find(old(comments), commentId).None? ==>
        r == Err(NotFound("Le commentaire avec l'id " + NatToString(commentId) + " n'existe pas.")) && comments == old(comments)
      ensures Find(old(comments), commentId).Some? ==>
        var c := old(comments)[commentId];
        && comments == old(comments)[commentId := c.(likes := Some(Toggled(LikesOf(c), userId)))]
        && r == Ok(comments[commentId])
      ensures users == old(users) && notifications == old(notifications) && pushes == old(pushes) && nextId == old(nextId)
    {
      var found := Find(comments, commentId);
      if found.None? {
        return Err(NotFound("Le commentaire avec l'id " + NatToString(commentId) + " n'existe pas."));
      }
      var comment := found.value;
      var likes := if comment.likes.None? then [] else comment.likes.value;
      var hasLiked := userId in likes;
      if hasLiked {
        likes := RemoveAll(likes, userId);
      } else {
        likes := likes + [userId];
      }
      comment := comment.(likes := Some(likes));
      comments := comments[commentId := comment];
      r := Ok(comment);
    }

    /** `remove(id, user)`: a soft removal by the comment's author. */
    method Remove(id: nat, userId: nat) returns (r: Result<Comment>)
      requires Valid()
      modifies this
      ensures Valid()
      ensures r == RemoveDecision(Find(old(comments), id), userId)
      ensures r.Ok? ==> comments == old(comments)[id := old(comments)[id].(deleted := true)]
      ensures r.Err? ==> comments == old(comments)
      ensures users == old(users) && notifications == old(notifications) && pushes == old(pushes) && nextId == old(nextId)
    {
      var comment := Find(comments, id);
      r := RemoveDecision(comment, userId);
      if r.Ok? {
        comments := comments[id := comment.value.(deleted := true)];
      }
    }
  }
}
