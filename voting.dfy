/** The like/dislike toggle of `POST /like/:id` and `POST /dislike/:id`.
    The `joke_votes` table is unique on (user, joke), so it is a map from
    that pair to the stored `vote_type` text. */
module Voting {
  import opened Wrappers
  import opened Auth

  type JokeId = int

  datatype VoteKey = VoteKey(jokeId: JokeId, userId: UserId)

  type VoteTableRows = map<VoteKey, string>

  /** The vote a handler requests. */
  datatype VoteKind = Like | Dislike {
    /** The `vote_type` text the handler writes and counts. */
    function Name(): string {
      match this
      case Like => "like"
      case Dislike => "dislike"
    }

    function Opposite(): VoteKind {
      match this
      case Like => Dislike
      case Dislike => Like
    }
  }

  /** Every stored `vote_type` is one the toggles write. */
  ghost predicate WellTyped(votes: VoteTableRows) {
    forall k :: k in votes ==> votes[k] in {"like", "dislike"}
  }

  /** The rows of one joke whose type is `voteType`. */
  function Rows(votes: VoteTableRows, jokeId: JokeId, voteType: string): set<VoteKey>
  {
    set k | k in votes && k.jokeId == jokeId && votes[k] == voteType
  }

  /** `SELECT COUNT(*) FROM joke_votes WHERE joke_id=$1 AND vote_type=$2`. */
  function Count(votes: VoteTableRows, jokeId: JokeId, voteType: string): nat
  {
    |Rows(votes, jokeId, voteType)|
  }

  /** The JSON reply of the toggle handlers. */
  datatype VoteReply = Unauthorized | Tally(likes: nat, dislikes: nat)

  /** The table after one toggle of `kind` by `key.userId` on `key.jokeId`:
      a row of the requested type is removed (undo), any other row is
      overwritten with it (switch), and a missing row is inserted. */
  function Toggled(votes: VoteTableRows, key: VoteKey, kind: VoteKind): (r: VoteTableRows)
    ensures key in r <==> !(key in votes && votes[key] == kind.Name())
    ensures key in r ==> r[key] == kind.Name()
    ensures forall k :: k != key ==> (k in r <==> k in votes)
    ensures forall k :: k != key && k in r ==> r[k] == votes[k]
  {
    if key in votes then
      if votes[key] == kind.Name() then votes - {key} else votes[key := kind.Name()]
    else votes[key := kind.Name()]
  }

  /** 1 when `key` is a row of joke `jokeId` with type `voteType`, else 0. */
  function Hit(votes: VoteTableRows, key: VoteKey, jokeId: JokeId, voteType: string): nat
  {
    if key in votes && key.jokeId == jokeId && votes[key] == voteType then 1 else 0
  }

  /** A change confined to one key moves each count by at most that key's
      own contribution. */
  lemma CountAfterChangeAt(before: VoteTableRows, after: VoteTableRows, key: VoteKey, jokeId: JokeId, voteType: string)
    requires forall k :: k != key ==> (k in after <==> k in before)
    requires forall k :: k != key && k in after ==> after[k] == before[k]
    ensures Count(after, jokeId, voteType) + Hit(before, key, jokeId, voteType)
         == Count(before, jokeId, voteType) + Hit(after, key, jokeId, voteType)
  {
    var sb, sa := Rows(before, jokeId, voteType), Rows(after, jokeId, voteType);
    forall k | k != key
      ensures k in sb <==> k in sa
    {
    }
    assert sb - {key} == sa - {key};
    RemoveOne(sb, key);
    RemoveOne(sa, key);
    assert (key in sb) == (Hit(before, key, jokeId, voteType) == 1);
    assert (key in sa) == (Hit(after, key, jokeId, voteType) == 1);
  }

  lemma RemoveOne<T>(s: set<T>, x: T)
    ensures |s| == |s - {x}| + (if x in s then 1 else 0)
  {
    if x in s {
      assert s == (s - {x}) + {x};
    } else {
      assert s == s - {x};
    }
  }

  /** The counts a toggle reports, against the counts before it: the
      requested type goes up by one, or down by one when the toggle undid
      the user's own vote of that type; the opposite type goes down by one
      exactly when the toggle switched the user's vote from it; other
      jokes are unaffected. */
  lemma {:induction false} ToggleCounts(votes: VoteTableRows, key: VoteKey, kind: VoteKind, jokeId: JokeId)
    ensures var after := Toggled(votes, key, kind);
      var undo := key in votes && votes[key] == kind.Name();
      var switched := key in votes && votes[key] == kind.Opposite().Name();
      && (jokeId == key.jokeId ==>
            && Count(after, jokeId, kind.Name()) == Count(votes, jokeId, kind.Name()) + (if undo then -1 else 1)
            && Count(after, jokeId, kind.Opposite().Name()) == Count(votes, jokeId, kind.Opposite().Name()) - (if switched then 1 else 0))
      && (jokeId != key.jokeId ==>
            && Count(after, jokeId, "like") == Count(votes, jokeId, "like")
            && Count(after, jokeId, "dislike") == Count(votes, jokeId, "dislike"))
  {
    var after := Toggled(votes, key, kind);
    CountAfterChangeAt(votes, after, key, jokeId, kind.Name());
    CountAfterChangeAt(votes, after, key, jokeId, kind.Opposite().Name());
    CountAfterChangeAt(votes, after, key, jokeId, "like");
    CountAfterChangeAt(votes, after, key, jokeId, "dislike");
  }

  /** Toggling twice with the same kind restores the table when the user
      had no vote or a vote of that kind; from a vote of any other type it
      ends with no vote at all (switch, then undo). */
  lemma {:induction false} ToggleTwice(votes: VoteTableRows, key: VoteKey, kind: VoteKind)
    ensures var twice := Toggled(Toggled(votes, key, kind), key, kind);
      if key !in votes || votes[key] == kind.Name() then twice == votes else twice == votes - {key}
  {
    var twice := Toggled(Toggled(votes, key, kind), key, kind);
    if key !in votes || votes[key] == kind.Name() {
      assert twice.Keys == votes.Keys;
    } else {
      assert twice.Keys == votes.Keys - {key};
    }
  }

  /** Toggles keep every stored type among those the toggles write. */
  lemma ToggledWellTyped(votes: VoteTableRows, key: VoteKey, kind: VoteKind)
    requires WellTyped(votes)
    ensures WellTyped(Toggled(votes, key, kind))
  {
  }

  /** The users who have a vote of any type on a joke. */
  function Voters(votes: VoteTableRows, jokeId: JokeId): set<VoteKey>
  {
    set k | k in votes && k.jokeId == jokeId
  }

  /** On a table of like and dislike rows only, the two counts split the
      joke's voters: nobody is counted twice and nobody is missed. */
  lemma CountsPartitionVoters(votes: VoteTableRows, jokeId: JokeId)
    requires WellTyped(votes)
    ensures Count(votes, jokeId, "like") + Count(votes, jokeId, "dislike") == |Voters(votes, jokeId)|
  {
    var likes, dislikes := Rows(votes, jokeId, "like"), Rows(votes, jokeId, "dislike");
    assert likes * dislikes == {};
    assert likes + dislikes == Voters(votes, jokeId);
  }

  /** The first like on a joke nobody has voted on yet reports one like
      and no dislike, and a second like by the same user takes it back. */
  lemma FirstLikeOnFreshJoke(votes: VoteTableRows, key: VoteKey)
    requires Count(votes, key.jokeId, "like") == 0 && Count(votes, key.jokeId, "dislike") == 0
    ensures var once := Toggled(votes, key, Like);
      && Count(once, key.jokeId, "like") == 1 && Count(once, key.jokeId, "dislike") == 0
      && var twice := Toggled(once, key, Like);
         Count(twice, key.jokeId, "like") == 0 && Count(twice, key.jokeId, "dislike") == 0
  {
    ToggleCounts(votes, key, Like, key.jokeId);
    var once := Toggled(votes, key, Like);
    ToggleCounts(once, key, Like, key.jokeId);
  }

  /** The state behind both toggle handlers. */
  class VoteTable {
    var votes: VoteTableRows

    /** The table over the rows the database already holds, which may be
        of any type, written by earlier runs or by the legacy routes. */
    constructor (rows: VoteTableRows)
      ensures votes == rows
    {
      votes := rows;
    }

    /** The current like and dislike counts of a joke, as the handlers
        report them. */
    function TallyOf(jokeId: JokeId): VoteReply
      reads this
    {
      Tally(Count(votes, jokeId, "like"), Count(votes, jokeId, "dislike"))
    }

    /** Both handlers: refuse an anonymous session, then select the user's
        row, delete, update or insert it, and count the joke's rows. */
    method Toggle(session: Session, jokeId: JokeId, kind: VoteKind) returns (reply: VoteReply)
      modifies this
      ensures !SignedIn(session) ==> reply == Unauthorized && votes == old(votes)
      ensures SignedIn(session) ==>
        && votes == Toggled(old(votes), VoteKey(jokeId, session.userId.value), kind)
        && reply == TallyOf(jokeId)
    {
      if !SignedIn(session) {
        return Unauthorized;
      }
      var key := VoteKey(jokeId, session.userId.value);
      if key in votes {
        if votes[key] == kind.Name() {
          votes := votes - {key};
        } else {
          votes := votes[key := kind.Name()];
        }
      } else {
        votes := votes[key := kind.Name()];
      }
      var likes := Count(votes, jokeId, "like");
      var dislikes := Count(votes, jokeId, "dislike");
      reply := Tally(likes, dislikes);
    }

    /** `POST /like/:id`. */
    method Like(session: Session, jokeId: JokeId) returns (reply: VoteReply)
      modifies this
      ensures !SignedIn(session) ==> reply == Unauthorized && votes == old(votes)
      ensures SignedIn(session) ==>
        && votes == Toggled(old(votes), VoteKey(jokeId, session.userId.value), VoteKind.Like)
        && reply == TallyOf(jokeId)
    {
      reply := Toggle(session, jokeId, VoteKind.Like);
    }

    /** `POST /dislike/:id`. */
    method Dislike(session: Session, jokeId: JokeId) returns (reply: VoteReply)
      modifies this
      ensures !SignedIn(session) ==> reply == Unauthorized && votes == old(votes)
      ensures SignedIn(session) ==>
        && votes == Toggled(old(votes), VoteKey(jokeId, session.userId.value), VoteKind.Dislike)
        && reply == TallyOf(jokeId)
    {
      reply := Toggle(session, jokeId, VoteKind.Dislike);
    }
  }

  /** The scenario of a fresh user on a fresh table: like, like again,
      then dislike. */
  method LikeUndoDislikeScenario(session: Session, jokeId: JokeId)
    requires SignedIn(session)
  {
    var table := new VoteTable(map[]);
    var r := table.Like(session, jokeId);
    FirstLikeOnFreshJoke(map[], VoteKey(jokeId, session.userId.value));
    assert r == Tally(1, 0);
    r := table.Like(session, jokeId);
    assert r == Tally(0, 0);
    r := table.Dislike(session, jokeId);
    ToggleCounts(map[], VoteKey(jokeId, session.userId.value), Dislike, jokeId);
    assert r == Tally(0, 1);
    r := table.Like(Anonymous, jokeId);
    assert r == Unauthorized;
  }
}
