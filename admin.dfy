/** The `votesByJoke` dictionary of the admin dashboard: the vote rows
    (joke id, voter's username, vote type) folded into one entry per joke
    holding the usernames of its likers and of its dislikers. */
module AdminDashboard {

  import Voting

  datatype VoteRow = VoteRow(jokeId: Voting.JokeId, username: string, voteType: string)

  datatype Voters = Voters(likes: seq<string>, dislikes: seq<string>)

  /** One step of the `forEach` body: create the joke's entry if it is
      missing, then push the username onto the list its type names. */
  function Place(byJoke: map<Voting.JokeId, Voters>, v: VoteRow): map<Voting.JokeId, Voters>
  {
    var m := if v.jokeId in byJoke then byJoke else byJoke[v.jokeId := Voters([], [])];
    var e := m[v.jokeId];
    if v.voteType == "like" then m[v.jokeId := e.(likes := e.likes + [v.username])]
    else if v.voteType == "dislike" then m[v.jokeId := e.(dislikes := e.dislikes + [v.username])]
    else m
  }

  /** The dictionary after the loop has visited every row, in order. */
  function Grouped(rows: seq<VoteRow>): map<Voting.JokeId, Voters>
    decreases |rows|
  {
    if rows == [] then map[] else Place(Grouped(rows[..|rows| - 1]), rows[|rows| - 1])
  }

  /** Reference definition: the usernames of the rows of `jokeId` whose
      type is `voteType`, in row order. */
  function UsernamesOf(rows: seq<VoteRow>, jokeId: Voting.JokeId, voteType: string): seq<string>
  {
    if rows == [] then []
    else
      var first := if rows[0].jokeId == jokeId && rows[0].voteType == voteType then [rows[0].username] else [];
      first + UsernamesOf(rows[1..], jokeId, voteType)
  }

  /** The jokes that have at least one row. */
  function JokesOf(rows: seq<VoteRow>): set<Voting.JokeId>
  {
    set i | 0 <= i < |rows| :: rows[i].jokeId
  }

  lemma {:induction false} UsernamesOfSnoc(rows: seq<VoteRow>, v: VoteRow, jokeId: Voting.JokeId, voteType: string)
    ensures UsernamesOf(rows + [v], jokeId, voteType)
         == UsernamesOf(rows, jokeId, voteType) + (if v.jokeId == jokeId && v.voteType == voteType then [v.username] else [])
    decreases |rows|
  {
    if rows == [] {
      assert rows + [v] == [v];
    } else {
      assert (rows + [v])[0] == rows[0] && (rows + [v])[1..] == rows[1..] + [v];
      UsernamesOfSnoc(rows[1..], v, jokeId, voteType);
    }
  }

  /** A row adds its joke to the jokes with rows. */
  lemma JokesOfSnoc(rows: seq<VoteRow>, v: VoteRow)
    ensures JokesOf(rows + [v]) == JokesOf(rows) + {v.jokeId}
  {
    var grown := rows + [v];
    forall j | j in JokesOf(grown) ensures j in JokesOf(rows) + {v.jokeId} {
      var i :| 0 <= i < |grown| && grown[i].jokeId == j;
      if i < |rows| { assert rows[i] == grown[i]; }
    }
    forall j | j in JokesOf(rows) ensures j in JokesOf(grown) {
      var i :| 0 <= i < |rows| && rows[i].jokeId == j;
      assert grown[i] == rows[i];
    }
    assert grown[|rows|] == v;
  }

  /** A joke has an entry exactly when some row names it: a joke without
      votes gets none, a joke whose rows all have some other type gets an
      empty one. */
  lemma {:induction false} GroupedKeys(rows: seq<VoteRow>)
    ensures Grouped(rows).Keys == JokesOf(rows)
    decreases |rows|
  {
    if rows != [] {
      var init, v := rows[..|rows| - 1], rows[|rows| - 1];
      assert rows == init + [v];
      GroupedKeys(init);
      JokesOfSnoc(init, v);
    }
  }

  /** One more row keeps each entry equal to the usernames of its joke's
      "like" and "dislike" rows. */
  lemma EntryAfterRow(init: seq<VoteRow>, v: VoteRow, j: Voting.JokeId)
    requires Grouped(init).Keys == JokesOf(init)
    requires j in Grouped(init) ==> Grouped(init)[j] == Voters(UsernamesOf(init, j, "like"), UsernamesOf(init, j, "dislike"))
    requires j in Grouped(init + [v])
    ensures Grouped(init + [v])[j] == Voters(UsernamesOf(init + [v], j, "like"), UsernamesOf(init + [v], j, "dislike"))
  {
    assert (init + [v])[..|init|] == init;
    UsernamesOfSnoc(init, v, j, "like");
    UsernamesOfSnoc(init, v, j, "dislike");
    if j !in Grouped(init) {
      UsernamesOfAbsent(init, j, "like");
      UsernamesOfAbsent(init, j, "dislike");
    }
  }

  /** Each entry holds the usernames of its joke's "like" rows and of its
      "dislike" rows, each in row order; rows of any other type are in no
      list. */
  lemma {:induction false} GroupedEntries(rows: seq<VoteRow>)
    ensures forall j :: j in Grouped(rows) ==>
      Grouped(rows)[j] == Voters(UsernamesOf(rows, j, "like"), UsernamesOf(rows, j, "dislike"))
    decreases |rows|
  {
    if rows != [] {
      var init, v := rows[..|rows| - 1], rows[|rows| - 1];
      assert rows == init + [v];
      GroupedEntries(init);
      GroupedKeys(init);
      forall j | j in Grouped(rows)
        ensures Grouped(rows)[j] == Voters(UsernamesOf(rows, j, "like"), UsernamesOf(rows, j, "dislike"))
      {
        EntryAfterRow(init, v, j);
      }
    }
  }

  /** A joke that no row names has no likers and no dislikers. */
  lemma {:induction false} UsernamesOfAbsent(rows: seq<VoteRow>, jokeId: Voting.JokeId, voteType: string)
    requires jokeId !in JokesOf(rows)
    ensures UsernamesOf(rows, jokeId, voteType) == []
    decreases |rows|
  {
    if rows != [] {
      assert rows[0].jokeId in JokesOf(rows);
      assert JokesOf(rows[1..]) <= JokesOf(rows) by {
        forall j | j in JokesOf(rows[1..]) ensures j in JokesOf(rows) {
          var i :| 0 <= i < |rows[1..]| && rows[1..][i].jokeId == j;
          assert rows[i + 1].jokeId == j;
        }
      }
      UsernamesOfAbsent(rows[1..], jokeId, voteType);
    }
  }

  /** Lines 531-536 of the admin handler: the loop builds the dictionary
      one row at a time. */
  method GroupVotes(votes: seq<VoteRow>) returns (votesByJoke: map<Voting.JokeId, Voters>)
    ensures votesByJoke == Grouped(votes)
    ensures votesByJoke.Keys == JokesOf(votes)
    ensures forall j :: j in votesByJoke ==>
      votesByJoke[j].likes == UsernamesOf(votes, j, "like") && votesByJoke[j].dislikes == UsernamesOf(votes, j, "dislike")
  {
    votesByJoke := map[];
    for i := 0 to |votes|
      invariant votesByJoke == Grouped(votes[..i])
    {
      var v := votes[i];
      if v.jokeId !in votesByJoke {
        votesByJoke := votesByJoke[v.jokeId := Voters([], [])];
      }
      if v.voteType == "like" {
        votesByJoke := votesByJoke[v.jokeId := votesByJoke[v.jokeId].(likes := votesByJoke[v.jokeId].likes + [v.username])];
      }
      if v.voteType == "dislike" {
        votesByJoke := votesByJoke[v.jokeId := votesByJoke[v.jokeId].(dislikes := votesByJoke[v.jokeId].dislikes + [v.username])];
      }
      assert votes[..i + 1][..i] == votes[..i];
    }
    assert votes[..|votes|] == votes;
    GroupedKeys(votes);
    GroupedEntries(votes);
  }
}
