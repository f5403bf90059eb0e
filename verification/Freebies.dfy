/**
 * The `freebies` command: one embed listing the current and upcoming
 * giveaways, three inline fields per giveaway that has not ended.
 */
module Freebies {
  import opened Wrappers
  import opened Discord
  import opened Client

  /** A giveaway window; both ends are epoch milliseconds. */
  datatype Giveaway = Giveaway(startDate: int, endDate: int)

  datatype FreeGame = FreeGame(id: string, title: string, giveaway: Giveaway)

  const FreeGamesRequest := Get("/free-games", [])

  predicate Ended(g: Giveaway, now: int)
  {
    g.endDate < now
  }

  predicate OnGoing(g: Giveaway, now: int)
  {
    g.startDate < now && g.endDate > now
  }

  predicate Upcoming(g: Giveaway, now: int)
  {
    g.startDate > now
  }

  /** The status shown: on going first, then upcoming, and "Ended" for whatever is neither. */
  function Status(g: Giveaway, now: int): (r: string)
    ensures r == "On Going" <==> OnGoing(g, now)
    ensures r == "Upcoming" <==> !OnGoing(g, now) && Upcoming(g, now)
    ensures r == "Ended" <==> !OnGoing(g, now) && !Upcoming(g, now)
  {
    if OnGoing(g, now) then "On Going" else if Upcoming(g, now) then "Upcoming" else "Ended"
  }

  /** The three fields of one giveaway: its link, its status, and when it ends or starts. */
  function GameFields(game: FreeGame, now: int): (r: seq<Field>)
    ensures |r| == 3 && r[0].inline && r[1].inline && r[2].inline
    ensures r[0] == Field(game.title, "[View on egdata.app](https://egdata.app/offers/" + game.id + ")", true)
    ensures r[1] == Field("Status", Status(game.giveaway, now), true)
    ensures r[2].name == "Ends" <==> OnGoing(game.giveaway, now)
    ensures r[2].name == "Starts" <==> !OnGoing(game.giveaway, now)
    ensures OnGoing(game.giveaway, now) ==> r[2].value == RelativeTime(game.giveaway.endDate)
    ensures !OnGoing(game.giveaway, now) ==> r[2].value == RelativeTime(game.giveaway.startDate)
  {
    var g := game.giveaway;
    var onGoing := OnGoing(g, now);
    [Field(game.title, "[View on egdata.app](https://egdata.app/offers/" + game.id + ")", true),
     Field("Status", Status(g, now), true),
     Field(if onGoing then "Ends" else "Starts",
           RelativeTime(if onGoing then g.endDate else g.startDate), true)]
  }

  /** The fields the loop adds for `games`, in order, skipping ended giveaways. */
  function Listed(games: seq<FreeGame>, now: int): seq<Field>
  {
    if |games| == 0 then []
    else
      var last := games[|games| - 1];
      Listed(games[..|games| - 1], now) + (if Ended(last.giveaway, now) then [] else GameFields(last, now))
  }

  /** The games whose giveaway has not ended, in order. */
  function Kept(games: seq<FreeGame>, now: int): (r: seq<FreeGame>)
    ensures |r| <= |games|
  {
    if |games| == 0 then []
    else
      var last := games[|games| - 1];
      var init := Kept(games[..|games| - 1], now);
      init + (if Ended(last.giveaway, now) then [] else [last])
  }

  /** A game is kept exactly when it is one of the games and its giveaway has not ended. */
  lemma {:induction false} KeptMembers(games: seq<FreeGame>, now: int)
    ensures forall game :: game in Kept(games, now) <==> game in games && !Ended(game.giveaway, now)
  {
    if |games| > 0 {
      var init, last := games[..|games| - 1], games[|games| - 1];
      KeptMembers(init, now);
      assert games == init + [last];
    }
  }

  /**
   * The listed fields are exactly the three fields of every kept game, in
   * the order the games came.
   */
  lemma {:induction false} ListedIsKeptGames(games: seq<FreeGame>, now: int)
    ensures |Listed(games, now)| == 3 * |Kept(games, now)|
    ensures forall k :: 0 <= k < |Kept(games, now)| ==>
              Listed(games, now)[3 * k..3 * k + 3] == GameFields(Kept(games, now)[k], now)
  {
    if |games| > 0 {
      var init, last := games[..|games| - 1], games[|games| - 1];
      ListedIsKeptGames(init, now);
      var listed, kept := Listed(init, now), Kept(init, now);
      if Ended(last.giveaway, now) {
        assert Listed(games, now) == listed && Kept(games, now) == kept;
      } else {
        var fields := GameFields(last, now);
        assert |fields| == 3;
        assert Listed(games, now) == listed + fields;
        assert Kept(games, now) == kept + [last];
        AppendTriple(listed, fields, kept, last, g => GameFields(g, now));
      }
    }
  }

  /** Appending the triple of one more element keeps the triples aligned with the elements. */
  lemma AppendTriple<T>(listed: seq<Field>, fields: seq<Field>, kept: seq<T>, last: T, f: T -> seq<Field>)
    requires |listed| == 3 * |kept|
    requires forall k :: 0 <= k < |kept| ==> listed[3 * k..3 * k + 3] == f(kept[k])
    requires |fields| == 3 && fields == f(last)
    ensures |listed + fields| == 3 * |kept + [last]|
    ensures forall k :: 0 <= k < |kept + [last]| ==> (listed + fields)[3 * k..3 * k + 3] == f((kept + [last])[k])
  {
    forall k | 0 <= k < |kept| + 1
      ensures (listed + fields)[3 * k..3 * k + 3] == f((kept + [last])[k])
    {
      if k < |kept| {
        PrefixSlice(listed, fields, 3 * k, 3 * k + 3);
      } else {
        assert (listed + fields)[3 * k..3 * k + 3] == fields;
      }
    }
  }

  lemma PrefixSlice<T>(a: seq<T>, b: seq<T>, lo: nat, hi: nat)
    requires lo <= hi <= |a|
    ensures (a + b)[lo..hi] == a[lo..hi]
  {
  }

  /** A giveaway that has started but not ended is listed with the instant it ends. */
  lemma OnGoingShowsEnd(game: FreeGame, now: int)
    requires OnGoing(game.giveaway, now)
    ensures !Ended(game.giveaway, now)
    ensures GameFields(game, now)[1].value == "On Going"
    ensures GameFields(game, now)[2] == Field("Ends", RelativeTime(game.giveaway.endDate), true)
  {
  }

  /**
   * A listed giveaway shows "Ended" exactly on the boundaries: it starts at
   * this instant, or it has started and ends at this instant. It is then
   * listed with its start.
   */
  lemma EndedOnlyAtBoundaries(game: FreeGame, now: int)
    requires !Ended(game.giveaway, now)
    ensures GameFields(game, now)[1].value == "Ended" <==>
              game.giveaway.startDate == now || (game.giveaway.startDate < now && game.giveaway.endDate == now)
    ensures GameFields(game, now)[1].value == "Ended" ==>
              GameFields(game, now)[2] == Field("Starts", RelativeTime(game.giveaway.startDate), true)
  {
  }

  const Intro := "Here are the current giveaways on Epic Games Store. Use the link below each giveaway to view more details on egdata.app."

  /** The embed before any giveaway is added. */
  function Header(now: int): Embed
  {
    EmptyEmbed.(
      title := Some("Current Giveaways"),
      description := Some(Intro),
      url := Some("https://egdata.app"),
      color := Some(Green),
      timestamp := Some(now),
      footer := Some(Footer("Powered by egdata.app", None)))
  }

  /**
   * `execute`: request the free games, then walk them in order, skipping
   * ended giveaways and adding three inline fields for every other one; the
   * reply is the single embed. `now` is the one instant the comparisons use.
   */
  method Execute(games: seq<FreeGame>, now: int) returns (x: Execution)
    ensures x.calls == [FreeGamesRequest]
    ensures x.reply == Embeds([Header(now).(fields := Listed(games, now))])
    ensures |x.reply.embeds[0].fields| == 3 * |Kept(games, now)|
  {
    var embed := Header(now);
    var i := 0;
    while i < |games|
      invariant 0 <= i <= |games|
      invariant embed == Header(now).(fields := Listed(games[..i], now))
    {
      var freebie := games[i];
      var isEnded := freebie.giveaway.endDate < now;
      var isOnGoing := freebie.giveaway.startDate < now && freebie.giveaway.endDate > now;
      var isUpcoming := freebie.giveaway.startDate > now;
      assert games[..i + 1][..i] == games[..i];
      if !isEnded {
        embed := embed.(fields := embed.fields + [
          Field(freebie.title, "[View on egdata.app](https://egdata.app/offers/" + freebie.id + ")", true),
          Field("Status", if isOnGoing then "On Going" else if isUpcoming then "Upcoming" else "Ended", true),
          Field(if isOnGoing then "Ends" else "Starts",
                RelativeTime(if isOnGoing then freebie.giveaway.endDate else freebie.giveaway.startDate), true)]);
      }
      i := i + 1;
    }
    assert games[..|games|] == games;
    ListedIsKeptGames(games, now);
    x := Execution([FreeGamesRequest], Embeds([embed]));
  }
}
