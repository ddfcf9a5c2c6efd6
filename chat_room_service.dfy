/** Room resolution: a room is a pair of directional records sharing one chatId; the
    service looks a room up by the ordered (sender, receiver) pair and, when asked to,
    creates the two records. */
module ChatRooms {
  import opened Common
  import opened Entities

  /** The conversation name both records of a new room share: the sender, a spaced
      heart, and the receiver. */
  function ChatIdOf(senderId: string, receiverId: string): (chatId: string)
    ensures |chatId| == |senderId| + 3 + |receiverId|
    ensures chatId[..|senderId|] == senderId && chatId[|senderId| + 3..] == receiverId
    ensures chatId[|senderId|] == ' ' && chatId[|senderId| + 1] == '❤' && chatId[|senderId| + 2] == ' '
  {
    senderId + " ❤ " + receiverId
  }

  predicate HasNoHeart(s: string) {
    forall i :: 0 <= i < |s| ==> s[i] != '❤'
  }

  /** In the chatId of heart-free ids, the first heart sits right after the sender. */
  lemma FirstHeart(senderId: string, receiverId: string)
    requires HasNoHeart(senderId)
    ensures var c := ChatIdOf(senderId, receiverId);
      c[|senderId| + 1] == '❤' && forall i :: 0 <= i <= |senderId| ==> c[i] != '❤'
  {
    var c := ChatIdOf(senderId, receiverId);
    forall i | 0 <= i <= |senderId|
      ensures c[i] != '❤'
    {
      if i < |senderId| {
        assert c[i] == c[..|senderId|][i] == senderId[i];
      }
    }
  }

  /** Distinct pairs of heart-free ids give distinct chatIds; in particular the chatId
      depends on the order of the pair. */
  lemma ChatIdInjective(a: string, b: string, c: string, d: string)
    requires HasNoHeart(a) && HasNoHeart(c)
    requires ChatIdOf(a, b) == ChatIdOf(c, d)
    ensures a == c && b == d
  {
    var x := ChatIdOf(a, b);
    FirstHeart(a, b);
    FirstHeart(c, d);
    assert |a| == |c|;
    assert a == x[..|a|] == c;
    assert b == x[|a| + 3..] == d;
  }

  /** Ids that themselves contain the separator can make two different pairs share
      one chatId. */
  lemma ChatIdCollision()
    ensures ChatIdOf("x", "y ❤ z") == ChatIdOf("x ❤ y", "z")
  {
  }

  predicate OccursAt(hay: string, needle: string, i: nat) {
    i + |needle| <= |hay| && hay[i..i + |needle|] == needle
  }

  /** The chatId contains both ids, the sender's first. */
  lemma ChatIdContainsBoth(senderId: string, receiverId: string)
    ensures OccursAt(ChatIdOf(senderId, receiverId), senderId, 0)
    ensures exists j: nat :: j > |senderId| && OccursAt(ChatIdOf(senderId, receiverId), receiverId, j)
  {
    var c := ChatIdOf(senderId, receiverId);
    assert c[0..|senderId|] == senderId;
    assert OccursAt(c, receiverId, |senderId| + 3) by {
      assert c[|senderId| + 3..|senderId| + 3 + |receiverId|] == c[|senderId| + 3..];
    }
  }

  predicate IsPair(room: ChatRoom, senderId: string, receiverId: string) {
    room.senderId == senderId && room.receiverId == receiverId
  }

  /** The records of the ordered pair (senderId, receiverId), in store order. */
  function Matching(rooms: seq<ChatRoom>, senderId: string, receiverId: string): (m: seq<ChatRoom>)
    ensures |m| <= |rooms|
    ensures forall x :: x in m <==> x in rooms && IsPair(x, senderId, receiverId)
  {
    if rooms == [] then []
    else
      var rest := Matching(rooms[1..], senderId, receiverId);
      assert forall x :: x in rooms <==> x == rooms[0] || x in rooms[1..];
      if IsPair(rooms[0], senderId, receiverId) then [rooms[0]] + rest else rest
  }

  lemma {:induction false} MatchingAppend(a: seq<ChatRoom>, b: seq<ChatRoom>, senderId: string, receiverId: string)
    ensures Matching(a + b, senderId, receiverId) == Matching(a, senderId, receiverId) + Matching(b, senderId, receiverId)
  {
    if a != [] {
      assert (a + b)[1..] == a[1..] + b;
      MatchingAppend(a[1..], b, senderId, receiverId);
    } else {
      assert a + b == b;
    }
  }

  /** The repository's findBySenderIdAndReceiverId: no document, the one document, or
      an error when the ordered pair matches several documents. */
  function FindBySenderIdAndReceiverId(rooms: seq<ChatRoom>, senderId: string, receiverId: string)
    : (res: Result<Option<ChatRoom>>)
    ensures res == Ok(None) <==> forall x :: x in rooms ==> !IsPair(x, senderId, receiverId)
    ensures res.Ok? && res.value.Some? ==> res.value.value in rooms && IsPair(res.value.value, senderId, receiverId)
    ensures |Matching(rooms, senderId, receiverId)| == 1 ==> res == Ok(Some(Matching(rooms, senderId, receiverId)[0]))
    ensures res.Err? <==> |Matching(rooms, senderId, receiverId)| >= 2
    ensures res.Err? ==> res.error == IncorrectResultSize(1)
  {
    var m := Matching(rooms, senderId, receiverId);
    assert m != [] ==> m[0] in m;
    if |m| == 0 then Ok(None)
    else if |m| == 1 then Ok(Some(m[0]))
    else Err(IncorrectResultSize(1))
  }

  /** The two records createAndSaveChatRoom writes: (sender, receiver) then
      (receiver, sender), one chatId, document ids issued from `firstId`. */
  function MirroredRecords(senderId: string, receiverId: string, firstId: nat): seq<ChatRoom> {
    var chatId := ChatIdOf(senderId, receiverId);
    [ChatRoom(ObjectId(firstId), chatId, senderId, receiverId),
     ChatRoom(ObjectId(firstId + 1), chatId, receiverId, senderId)]
  }

  /** The room store after a call, and what the call returned. */
  datatype Resolution = Resolution(rooms: seq<ChatRoom>, result: Result<Option<string>>)

  /** getChatRoomId as written: the found record's document id, otherwise nothing or,
      when asked to create, the chatId of two freshly appended records. */
  function Resolve(rooms: seq<ChatRoom>, senderId: string, receiverId: string, create: bool): Resolution {
    match FindBySenderIdAndReceiverId(rooms, senderId, receiverId)
    case Err(e) => Resolution(rooms, Err(e))
    case Ok(Some(room)) => Resolution(rooms, Ok(Some(room.id)))
    case Ok(None) =>
      if create then Resolution(rooms + MirroredRecords(senderId, receiverId, |rooms|), Ok(Some(ChatIdOf(senderId, receiverId))))
      else Resolution(rooms, Ok(None))
  }

  // ----- invariants of the record store -----

  predicate IsMirror(a: ChatRoom, b: ChatRoom) {
    b.senderId == a.receiverId && b.receiverId == a.senderId && b.chatId == a.chatId
  }

  /** Record `i` has a record for the reverse direction with the same chatId. */
  ghost predicate HasMirror(rooms: seq<ChatRoom>, i: nat)
    requires i < |rooms|
  {
    exists j :: 0 <= j < |rooms| && IsMirror(rooms[i], rooms[j])
  }

  /** Every record has its mirror. */
  ghost predicate Mirrored(rooms: seq<ChatRoom>) {
    forall i: nat :: i < |rooms| ==> HasMirror(rooms, i)
  }

  /** At most one record per ordered pair. */
  ghost predicate UniquePairs(rooms: seq<ChatRoom>) {
    forall i, j :: 0 <= i < j < |rooms| ==> !IsPair(rooms[j], rooms[i].senderId, rooms[i].receiverId)
  }

  /** The store issued the document ids 0, 1, 2, ... in insertion order. */
  ghost predicate IdsAreIndices(rooms: seq<ChatRoom>) {
    forall i :: 0 <= i < |rooms| ==> rooms[i].id == ObjectId(i)
  }

  /** Record `k` is the only record of its ordered pair. */
  ghost predicate OnlyRecordOfPair(rooms: seq<ChatRoom>, k: nat)
    requires k < |rooms|
  {
    forall i :: 0 <= i < |rooms| && i != k ==> !IsPair(rooms[i], rooms[k].senderId, rooms[k].receiverId)
  }

  ghost predicate RoomInvariant(rooms: seq<ChatRoom>) {
    Mirrored(rooms) && UniquePairs(rooms)
  }

  lemma MirroredAppend(rooms: seq<ChatRoom>, recs: seq<ChatRoom>)
    requires Mirrored(rooms) && Mirrored(recs)
    ensures Mirrored(rooms + recs)
  {
    var all := rooms + recs;
    forall i: nat | i < |all|
      ensures HasMirror(all, i)
    {
      if i < |rooms| {
        assert HasMirror(rooms, i);
        var j :| 0 <= j < |rooms| && IsMirror(rooms[i], rooms[j]);
        assert all[i] == rooms[i] && all[j] == rooms[j];
      } else {
        assert HasMirror(recs, i - |rooms|);
        var j :| 0 <= j < |recs| && IsMirror(recs[i - |rooms|], recs[j]);
        assert all[i] == recs[i - |rooms|] && all[|rooms| + j] == recs[j];
      }
    }
  }

  lemma MirroredRecordsAreMirrored(senderId: string, receiverId: string, firstId: nat)
    ensures Mirrored(MirroredRecords(senderId, receiverId, firstId))
  {
    var recs := MirroredRecords(senderId, receiverId, firstId);
    assert IsMirror(recs[0], recs[1]) && IsMirror(recs[1], recs[0]);
    assert HasMirror(recs, 0) && HasMirror(recs, 1);
  }

  /** A single record for a self pair is its own mirror. */
  lemma SelfRecordIsMirrored(room: ChatRoom)
    requires room.senderId == room.receiverId
    ensures Mirrored([room])
  {
    assert IsMirror([room][0], [room][0]);
    assert HasMirror([room], 0);
  }

  /** No record for (s, r) in a mirrored store means none for (r, s) either. */
  lemma NoReverseWithoutForward(rooms: seq<ChatRoom>, senderId: string, receiverId: string)
    requires Mirrored(rooms)
    requires forall x :: x in rooms ==> !IsPair(x, senderId, receiverId)
    ensures forall x :: x in rooms ==> !IsPair(x, receiverId, senderId)
  {
    forall x | x in rooms
      ensures !IsPair(x, receiverId, senderId)
    {
      var i :| 0 <= i < |rooms| && rooms[i] == x;
      assert HasMirror(rooms, i);
      var j :| 0 <= j < |rooms| && IsMirror(rooms[i], rooms[j]);
      assert rooms[j] in rooms;
    }
  }

  /** The query result is empty exactly when no record has the pair. */
  lemma NoMatchIsEmpty(rooms: seq<ChatRoom>, senderId: string, receiverId: string)
    ensures Matching(rooms, senderId, receiverId) == [] <==> forall x :: x in rooms ==> !IsPair(x, senderId, receiverId)
  {
    var m := Matching(rooms, senderId, receiverId);
    assert m == [] || m[0] in m;
  }

  /** A record that is the only one of its ordered pair is the whole query result,
      whatever other pairs the store holds. */
  lemma {:induction false} OnlyRecordMatch(rooms: seq<ChatRoom>, k: nat)
    requires k < |rooms| && OnlyRecordOfPair(rooms, k)
    ensures Matching(rooms, rooms[k].senderId, rooms[k].receiverId) == [rooms[k]]
  {
    var s, r := rooms[k].senderId, rooms[k].receiverId;
    if k == 0 {
      forall x | x in rooms[1..]
        ensures !IsPair(x, s, r)
      {
        var j :| 0 <= j < |rooms[1..]| && rooms[1..][j] == x;
        assert rooms[j + 1] == x;
      }
      NoMatchIsEmpty(rooms[1..], s, r);
    } else {
      assert !IsPair(rooms[0], s, r);
      assert rooms[1..][k - 1] == rooms[k];
      assert OnlyRecordOfPair(rooms[1..], k - 1) by {
        forall i | 0 <= i < |rooms[1..]| && i != k - 1
          ensures !IsPair(rooms[1..][i], s, r)
        {
          assert rooms[1..][i] == rooms[i + 1];
        }
      }
      OnlyRecordMatch(rooms[1..], k - 1);
    }
  }

  /** With one record per ordered pair, a matching record is the whole query result. */
  lemma UniqueMatch(rooms: seq<ChatRoom>, k: nat)
    requires UniquePairs(rooms) && k < |rooms|
    ensures Matching(rooms, rooms[k].senderId, rooms[k].receiverId) == [rooms[k]]
  {
    forall i | 0 <= i < |rooms| && i != k
      ensures !IsPair(rooms[i], rooms[k].senderId, rooms[k].receiverId)
    {
      if i < k {
        assert !IsPair(rooms[k], rooms[i].senderId, rooms[i].receiverId);
      } else {
        assert !IsPair(rooms[i], rooms[k].senderId, rooms[k].receiverId);
      }
    }
    OnlyRecordMatch(rooms, k);
  }

  /** Under the invariant the single-result query never fails. */
  lemma UniqueLookupSucceeds(rooms: seq<ChatRoom>, senderId: string, receiverId: string)
    requires UniquePairs(rooms)
    ensures FindBySenderIdAndReceiverId(rooms, senderId, receiverId).Ok?
  {
    var m := Matching(rooms, senderId, receiverId);
    if m != [] {
      assert m[0] in rooms;
      var k :| 0 <= k < |rooms| && rooms[k] == m[0];
      UniqueMatch(rooms, k);
    }
  }

  /** A record for a pair no existing record has keeps the pairs unique. */
  lemma UniqueAppend(rooms: seq<ChatRoom>, recs: seq<ChatRoom>)
    requires UniquePairs(rooms) && UniquePairs(recs)
    requires forall x, y :: x in rooms && y in recs ==> !IsPair(y, x.senderId, x.receiverId)
    ensures UniquePairs(rooms + recs)
  {
    var all := rooms + recs;
    forall i, j | 0 <= i < j < |all|
      ensures !IsPair(all[j], all[i].senderId, all[i].receiverId)
    {
      if j < |rooms| {
        assert all[i] == rooms[i] && all[j] == rooms[j];
      } else if i < |rooms| {
        assert all[i] in rooms && all[j] == recs[j - |rooms|] && recs[j - |rooms|] in recs;
      } else {
        assert all[i] == recs[i - |rooms|] && all[j] == recs[j - |rooms|];
      }
    }
  }

  // ----- getChatRoomId as written -----

  /** Resolution only ever appends: it writes nothing unless the pair is missing and
      creation was asked for, and then exactly the two mirrored records. */
  lemma ResolveOnlyAppends(rooms: seq<ChatRoom>, senderId: string, receiverId: string, create: bool)
    ensures var after := Resolve(rooms, senderId, receiverId, create).rooms;
      |after| >= |rooms| && after[..|rooms|] == rooms
      && (after != rooms <==> create && FindBySenderIdAndReceiverId(rooms, senderId, receiverId) == Ok(None))
      && (after != rooms ==> after[|rooms|..] == MirroredRecords(senderId, receiverId, |rooms|))
  {
    var after := Resolve(rooms, senderId, receiverId, create).rooms;
    if after != rooms {
      assert after == rooms + MirroredRecords(senderId, receiverId, |rooms|);
    }
  }

  /** Without the create flag nothing is written. */
  lemma ResolveWithoutCreateWritesNothing(rooms: seq<ChatRoom>, senderId: string, receiverId: string)
    ensures Resolve(rooms, senderId, receiverId, false).rooms == rooms
  {
  }

  /** A found record yields its document id, never its chatId, and writes nothing;
      only the looked-up pair needs to be unique. */
  lemma ResolveFoundReturnsDocumentId(rooms: seq<ChatRoom>, k: nat, create: bool)
    requires k < |rooms| && OnlyRecordOfPair(rooms, k)
    ensures Resolve(rooms, rooms[k].senderId, rooms[k].receiverId, create)
         == Resolution(rooms, Ok(Some(rooms[k].id)))
  {
    OnlyRecordMatch(rooms, k);
  }

  /** A missing pair yields nothing without the flag, and with it the pair's chatId,
      which contains both ids. */
  lemma ResolveMissing(rooms: seq<ChatRoom>, senderId: string, receiverId: string)
    requires forall x :: x in rooms ==> !IsPair(x, senderId, receiverId)
    ensures Resolve(rooms, senderId, receiverId, false) == Resolution(rooms, Ok(None))
    ensures Resolve(rooms, senderId, receiverId, true).result == Ok(Some(ChatIdOf(senderId, receiverId)))
    ensures |Resolve(rooms, senderId, receiverId, true).rooms| == |rooms| + 2
  {
  }

  /** Document ids stay the insertion indices and every record keeps its mirror. */
  lemma ResolveKeepsIdsAndMirrors(rooms: seq<ChatRoom>, senderId: string, receiverId: string, create: bool)
    requires IdsAreIndices(rooms) && Mirrored(rooms)
    ensures var after := Resolve(rooms, senderId, receiverId, create).rooms;
      IdsAreIndices(after) && Mirrored(after)
  {
    var after := Resolve(rooms, senderId, receiverId, create).rooms;
    if after != rooms {
      var recs := MirroredRecords(senderId, receiverId, |rooms|);
      assert after == rooms + recs;
      MirroredRecordsAreMirrored(senderId, receiverId, |rooms|);
      MirroredAppend(rooms, recs);
    }
  }

  /** For two different ids, resolution keeps one record per ordered pair. */
  lemma ResolveKeepsRoomInvariant(rooms: seq<ChatRoom>, senderId: string, receiverId: string, create: bool)
    requires RoomInvariant(rooms) && senderId != receiverId
    ensures RoomInvariant(Resolve(rooms, senderId, receiverId, create).rooms)
  {
    var after := Resolve(rooms, senderId, receiverId, create).rooms;
    if after != rooms {
      var recs := MirroredRecords(senderId, receiverId, |rooms|);
      assert after == rooms + recs;
      MirroredRecordsAreMirrored(senderId, receiverId, |rooms|);
      MirroredAppend(rooms, recs);
      NoReverseWithoutForward(rooms, senderId, receiverId);
      UniqueAppend(rooms, recs);
    }
  }

  /** The two records of a new room answer the two directions' queries, one each. */
  lemma NewRecordsMatch(rooms: seq<ChatRoom>, senderId: string, receiverId: string)
    requires senderId != receiverId
    requires forall x :: x in rooms ==> !IsPair(x, senderId, receiverId) && !IsPair(x, receiverId, senderId)
    ensures var recs := MirroredRecords(senderId, receiverId, |rooms|);
      && Matching(rooms + recs, senderId, receiverId) == [recs[0]]
      && Matching(rooms + recs, receiverId, senderId) == [recs[1]]
  {
    var recs := MirroredRecords(senderId, receiverId, |rooms|);
    MatchingAppend(rooms, recs, senderId, receiverId);
    MatchingAppend(rooms, recs, receiverId, senderId);
    NoMatchIsEmpty(rooms, senderId, receiverId);
    NoMatchIsEmpty(rooms, receiverId, senderId);
    assert Matching(recs, senderId, receiverId) == [recs[0]] by {
      assert recs[1..][1..] == [];
    }
    assert Matching(recs, receiverId, senderId) == [recs[1]] by {
      assert recs[1..][1..] == [];
    }
  }

  /** The document ids issued to a new room's records differ from each other and
      from its chatId, which holds a non-digit. */
  lemma NewRecordIdsDiffer(n: nat, senderId: string, receiverId: string)
    ensures ObjectId(n) != ChatIdOf(senderId, receiverId)
    ensures ObjectId(n + 1) != ChatIdOf(senderId, receiverId)
    ensures ObjectId(n) != ObjectId(n + 1)
  {
    var c := ChatIdOf(senderId, receiverId);
    ObjectIdAvoids(n, c, |senderId| + 1);
    ObjectIdAvoids(n + 1, c, |senderId| + 1);
    if ObjectId(n) == ObjectId(n + 1) {
      ObjectIdInjective(n, n + 1);
    }
  }

  /** After a room is created for two different ids, each direction finds its own
      record and returns that record's document id: neither equals the chatId the
      creating call returned, and the two differ from each other. */
  lemma CreatedRoomLookups(rooms: seq<ChatRoom>, senderId: string, receiverId: string, create: bool)
    requires Mirrored(rooms) && senderId != receiverId
    requires forall x :: x in rooms ==> !IsPair(x, senderId, receiverId)
    ensures var first := Resolve(rooms, senderId, receiverId, true);
      && first.result == Ok(Some(ChatIdOf(senderId, receiverId)))
      && Resolve(first.rooms, senderId, receiverId, create) == Resolution(first.rooms, Ok(Some(ObjectId(|rooms|))))
      && Resolve(first.rooms, receiverId, senderId, create) == Resolution(first.rooms, Ok(Some(ObjectId(|rooms| + 1))))
      && ObjectId(|rooms|) != ChatIdOf(senderId, receiverId)
      && ObjectId(|rooms| + 1) != ChatIdOf(senderId, receiverId)
      && ObjectId(|rooms|) != ObjectId(|rooms| + 1)
  {
    var recs := MirroredRecords(senderId, receiverId, |rooms|);
    NoReverseWithoutForward(rooms, senderId, receiverId);
    NewRecordsMatch(rooms, senderId, receiverId);
    NewRecordIdsDiffer(|rooms|, senderId, receiverId);
    assert FindBySenderIdAndReceiverId(rooms, senderId, receiverId) == Ok(None);
    assert FindBySenderIdAndReceiverId(rooms + recs, senderId, receiverId) == Ok(Some(recs[0]));
    assert FindBySenderIdAndReceiverId(rooms + recs, receiverId, senderId) == Ok(Some(recs[1]));
  }

  /** A self pair (a, a) writes two records with the same ordered pair; from then on
      every lookup of (a, a) fails with a non-unique result. */
  lemma SelfPairBreaksLookup(rooms: seq<ChatRoom>, a: string, create: bool)
    requires forall x :: x in rooms ==> !IsPair(x, a, a)
    ensures var first := Resolve(rooms, a, a, true);
      && first.result == Ok(Some(ChatIdOf(a, a)))
      && !UniquePairs(first.rooms)
      && Resolve(first.rooms, a, a, create) == Resolution(first.rooms, Err(IncorrectResultSize(1)))
  {
    var recs := MirroredRecords(a, a, |rooms|);
    var after := rooms + recs;
    MatchingAppend(rooms, recs, a, a);
    NoMatchIsEmpty(rooms, a, a);
    assert Matching(recs, a, a) == recs by {
      assert recs[1..][1..] == [];
    }
    assert after[|rooms|] == recs[0] && after[|rooms| + 1] == recs[1];
  }

  /** A self chat's duplicate records break only its own pair: a pair with a single
      record still resolves to that record's id afterwards. */
  lemma SelfChatLeavesOtherPairs(rooms: seq<ChatRoom>, a: string, k: nat, create: bool)
    requires forall x :: x in rooms ==> !IsPair(x, a, a)
    requires k < |rooms| && OnlyRecordOfPair(rooms, k)
    ensures var first := Resolve(rooms, a, a, true);
      Resolve(first.rooms, rooms[k].senderId, rooms[k].receiverId, create)
        == Resolution(first.rooms, Ok(Some(rooms[k].id)))
  {
    var first := Resolve(rooms, a, a, true);
    var recs := MirroredRecords(a, a, |rooms|);
    assert first.rooms == rooms + recs;
    assert !IsPair(rooms[k], a, a) by {
      assert rooms[k] in rooms;
    }
    assert first.rooms[k] == rooms[k];
    assert OnlyRecordOfPair(first.rooms, k) by {
      forall i | 0 <= i < |first.rooms| && i != k
        ensures !IsPair(first.rooms[i], rooms[k].senderId, rooms[k].receiverId)
      {
        if i < |rooms| {
          assert first.rooms[i] == rooms[i];
        } else {
          assert first.rooms[i] == recs[i - |rooms|];
        }
      }
    }
    ResolveFoundReturnsDocumentId(first.rooms, k, create);
  }

  // ----- the intended resolution -----

  /** The records a corrected creation writes: one record for a self pair, the
      mirrored pair otherwise. */
  function IntendedRecords(senderId: string, receiverId: string, firstId: nat): seq<ChatRoom> {
    if senderId == receiverId then [ChatRoom(ObjectId(firstId), ChatIdOf(senderId, receiverId), senderId, receiverId)]
    else MirroredRecords(senderId, receiverId, firstId)
  }

  /** getChatRoomId as evidently intended: a found record yields its chatId, the same
      value the creating call returned, and a self pair gets one record. */
  function ResolveIntended(rooms: seq<ChatRoom>, senderId: string, receiverId: string, create: bool): Resolution {
    match FindBySenderIdAndReceiverId(rooms, senderId, receiverId)
    case Err(e) => Resolution(rooms, Err(e))
    case Ok(Some(room)) => Resolution(rooms, Ok(Some(room.chatId)))
    case Ok(None) =>
      if create then Resolution(rooms + IntendedRecords(senderId, receiverId, |rooms|), Ok(Some(ChatIdOf(senderId, receiverId))))
      else Resolution(rooms, Ok(None))
  }

  /** The corrected creation keeps mirrored, unique records for every pair, a self
      pair included. */
  lemma ResolveIntendedKeepsRoomInvariant(rooms: seq<ChatRoom>, senderId: string, receiverId: string, create: bool)
    requires RoomInvariant(rooms)
    ensures RoomInvariant(ResolveIntended(rooms, senderId, receiverId, create).rooms)
  {
    var after := ResolveIntended(rooms, senderId, receiverId, create).rooms;
    if after != rooms {
      var recs := IntendedRecords(senderId, receiverId, |rooms|);
      assert after == rooms + recs;
      if senderId == receiverId {
        SelfRecordIsMirrored(recs[0]);
      } else {
        MirroredRecordsAreMirrored(senderId, receiverId, |rooms|);
      }
      MirroredAppend(rooms, recs);
      NoReverseWithoutForward(rooms, senderId, receiverId);
      UniqueAppend(rooms, recs);
    }
  }

  /** Once the corrected call has resolved a pair, every later lookup from either
      direction returns the same id and writes nothing. */
  lemma ResolveIntendedIsStable(rooms: seq<ChatRoom>, senderId: string, receiverId: string, create: bool)
    requires RoomInvariant(rooms)
    ensures var first := ResolveIntended(rooms, senderId, receiverId, true);
      && first.result.Ok? && first.result.value.Some?
      && ResolveIntended(first.rooms, senderId, receiverId, create) == Resolution(first.rooms, first.result)
      && ResolveIntended(first.rooms, receiverId, senderId, create) == Resolution(first.rooms, first.result)
  {
    var first := ResolveIntended(rooms, senderId, receiverId, true);
    UniqueLookupSucceeds(rooms, senderId, receiverId);
    ResolveIntendedKeepsRoomInvariant(rooms, senderId, receiverId, true);
    var m := Matching(rooms, senderId, receiverId);
    if m != [] {
      assert m[0] in rooms;
      var k :| 0 <= k < |rooms| && rooms[k] == m[0];
      UniqueMatch(rooms, k);
      assert HasMirror(rooms, k);
      var j :| 0 <= j < |rooms| && IsMirror(rooms[k], rooms[j]);
      UniqueMatch(rooms, j);
    } else {
      var recs := IntendedRecords(senderId, receiverId, |rooms|);
      assert first.rooms == rooms + recs;
      NoReverseWithoutForward(rooms, senderId, receiverId);
      UniqueMatch(first.rooms, |rooms|);
      if senderId == receiverId {
        assert first.rooms[|rooms|] == recs[0];
      } else {
        assert first.rooms[|rooms|] == recs[0] && first.rooms[|rooms| + 1] == recs[1];
        UniqueMatch(first.rooms, |rooms| + 1);
      }
    }
  }

  /** The room service: the ChatRoom collection, in insertion order. */
  class ChatRoomService {
    var rooms: seq<ChatRoom>

    ghost predicate Valid()
      reads this
    {
      IdsAreIndices(rooms) && Mirrored(rooms)
    }

    constructor ()
      ensures Valid() && rooms == []
    {
      rooms := [];
    }

    /** Looks the ordered pair up; creates the room when it is missing and `create` is set. */
    method GetChatRoomId(senderId: string, receiverId: string, create: bool) returns (res: Result<Option<string>>)
      requires Valid()
      modifies this
      ensures Valid()
      ensures Resolution(rooms, res) == Resolve(old(rooms), senderId, receiverId, create)
    {
      ResolveKeepsIdsAndMirrors(rooms, senderId, receiverId, create);
      var found := FindBySenderIdAndReceiverId(rooms, senderId, receiverId);
      match found {
        case Err(e) =>
          res := Err(e);
        case Ok(Some(room)) =>
          res := Ok(Some(room.id));
        case Ok(None) =>
          if create {
            var chatId := CreateAndSaveChatRoom(senderId, receiverId);
            res := Ok(Some(chatId));
          } else {
            res := Ok(None);
          }
      }
    }

    /** Writes the (sender, receiver) record, then the (receiver, sender) record, both
        with the derived chatId, and returns that chatId. */
    method CreateAndSaveChatRoom(senderId: string, receiverId: string) returns (chatId: string)
      requires Valid()
      modifies this
      ensures Valid()
      ensures chatId == ChatIdOf(senderId, receiverId)
      ensures rooms == old(rooms) + MirroredRecords(senderId, receiverId, |old(rooms)|)
    {
      ghost var before := rooms;
      ghost var recs := MirroredRecords(senderId, receiverId, |rooms|);
      MirroredRecordsAreMirrored(senderId, receiverId, |rooms|);
      MirroredAppend(rooms, recs);
      chatId := ChatIdOf(senderId, receiverId);
      // the store issues each document id as the record is saved
      rooms := rooms + [ChatRoom(ObjectId(|rooms|), chatId, senderId, receiverId)];
      rooms := rooms + [ChatRoom(ObjectId(|rooms|), chatId, receiverId, senderId)];
      assert rooms == before + recs;
    }
  }
}
